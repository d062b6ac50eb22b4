/** A closed engine can always be drained: every counted file reaches its client. */
module EngineProgress {
  import opened Collections
  import opened EngineState
  import opened EngineSafety
  import opened EngineTheorems

  // ----- What is left to do -----

  /** How far a file is from its client. */
  function FileRank(): File -> int {
    (f: File) =>
      match f.phase
      case Submitting => 5
      case Queued => 4
      case AtWorker => 3
      case InResults => 2
      case Buffered => 1
      case Delivered => 0
      case Uncounted => 0
  }

  function HandlerRank(h: Handler): nat {
    match h
    case Busy(_, _) => 5
    case Notifying(_) => 4
    case Idle => 2
    case Stopping => 1
    case Exited => 0
  }

  function ChanRank(): WorkChan -> nat {
    (w: WorkChan) => if w == Nil then 0 else 1
  }

  function Flag(b: bool): nat {
    if b then 1 else 0
  }

  /** The work left before the multiplexer can report its end. */
  ghost function Left(s: Engine): int {
    Sum(s.files, FileRank()) + 5 * Flag(s.clientJob.Some?) + 4 * |s.work| + HandlerRank(s.handler) + |s.jobLookupDone|
    + MapTotal(s.workMap, ChanRank()) + Flag(!s.workClosed) + Flag(s.schedulerUp) + s.workersUp + s.workersActive
  }

  lemma LeftNotNegative(s: Engine)
    requires WorkersValid(s)
    ensures Left(s) >= 0
  {
    SumBoundsTerm(s.files, FileRank());
  }

  /** The steps that drain a closed engine: no client joins, no job arrives and no file is
      counted, given up or shed. */
  predicate Drains(step: Step) {
    || step.SeeClosed? || step.CloseWork? || step.SendWork? || step.ReceiveResult? || step.Deliver? || step.LookupDone?
    || step.Take? || step.Submit? || step.EndLookup? || step.Notify? || step.SeeWorkClosed? || step.CloseFiles?
    || step.Dispatch? || step.SchedulerExit? || step.Report? || step.WorkerExit?
  }

  // ----- There is always something to do -----

  /** The multiplexer's own work comes first. */
  ghost predicate MuxHasWork(s: Engine) {
    s.tmpResults != map[] || s.jobLookupDone != [] || s.clientJob.Some? || s.results != []
  }

  lemma MuxStep(s: Engine) returns (step: Step)
    requires Invariant(s) && !s.muxDone && MuxHasWork(s)
    ensures Drains(step) && Enabled(s, step)
    ensures step.ReceiveResult? ==> s.tmpResults == map[]
  {
    if s.tmpResults != map[] {
      var c :| c in s.tmpResults;
      step := Deliver(c);
    } else if s.jobLookupDone != [] {
      step := LookupDone;
    } else if s.clientJob.Some? {
      step := SendWork;
    } else {
      step := ReceiveResult;
    }
  }

  lemma NobodyAtWork(files: seq<File>)
    requires forall f :: 0 <= f < |files| ==> files[f].phase != AtWorker
    ensures Sum(files, AtWorkerShare()) == 0
  {
    SumOfZeros(files, AtWorkerShare());
  }

  /** When the multiplexer waits, a worker, the scheduler or the handler can go on, or a
      client's channel or te.work can be closed. */
  lemma OtherStep(s: Engine) returns (step: Step)
    requires Invariant(s) && !s.muxDone && s.closing && !MuxHasWork(s)
    ensures Drains(step) && Enabled(s, step) && !step.ReceiveResult?
  {
    if f :| 0 <= f < |s.files| && s.files[f].phase == AtWorker {
      step := Report(f);
    } else {
      NobodyAtWork(s.files);
      if s.handler.Busy? {
        step := if s.handler.file.Some? then Submit else EndLookup;
      } else if s.handler.Notifying? {
        step := Notify;
      } else if f :| 0 <= f < |s.files| && s.files[f].phase == Queued {
        assert FileValid(s.files[f], f, s.results, s.handler, s.schedulerUp);
        step := Dispatch(f);
      } else if s.handler.Idle? {
        step := IdleStep(s);
      } else if s.handler.Stopping? {
        step := if s.schedulerUp then SchedulerExit else CloseFiles;
      } else {
        step := WorkerExit;
      }
    }
  }

  lemma IdleStep(s: Engine) returns (step: Step)
    requires Invariant(s) && !s.muxDone && s.closing && s.clientJob.None? && s.handler.Idle?
    ensures Drains(step) && Enabled(s, step) && !step.ReceiveResult?
  {
    if s.work != [] {
      step := Take;
    } else if c :| c in s.workMap && s.workMap[c] != Nil {
      step := SeeClosed(c);
    } else if !s.workClosed {
      step := CloseWork;
    } else {
      step := SeeWorkClosed;
    }
  }

  lemma NextStep(s: Engine) returns (step: Step)
    requires Invariant(s) && !s.muxDone && s.closing
    ensures Drains(step) && Enabled(s, step) && (step.ReceiveResult? ==> s.tmpResults == map[])
  {
    if MuxHasWork(s) {
      step := MuxStep(s);
    } else {
      step := OtherStep(s);
    }
  }

  // ----- Each of these steps leaves less to do -----

  lemma MoveLessens(files: seq<File>, f: FileId, phase: FilePhase)
    requires f < |files| && FileRank()(files[f].(phase := phase)) < FileRank()(files[f])
    ensures Sum(files[f := files[f].(phase := phase)], FileRank()) < Sum(files, FileRank())
  {
    SumUpdate(files, f, files[f].(phase := phase), FileRank());
  }

  lemma DeliverLessens(s: Engine, c: Client)
    requires Invariant(s) && Enabled(s, Deliver(c))
    ensures Left(Apply(s, Deliver(c))) < Left(s)
  {
    assert s.tmpResults[c][0] in s.tmpResults[c];
    var f := s.tmpResults[c][0];
    DeliverReady(s, c, f);
    MoveLessens(s.files, f, Delivered);
  }

  lemma ReceiveFileLessens(s: Engine, f: FileId)
    requires s.results != [] && s.results[0] == Some(f) && f < |s.files| && s.files[f].job < |s.jobs|
    requires s.files[f].phase == InResults
    ensures Left(AfterReceiveResult(s)) < Left(s)
  {
    MoveLessens(s.files, f, Buffered);
    var s' := AfterReceiveResult(s);
    assert s' == s.(results := s'.results, files := s'.files, tmpResults := s'.tmpResults);
  }

  lemma ReceiveLessens(s: Engine)
    requires Invariant(s) && Enabled(s, ReceiveResult)
    ensures Left(AfterReceiveResult(s)) < Left(s)
  {
    if s.results[0].Some? {
      ReceivedWaited(s);
      ReceiveFileLessens(s, s.results[0].value);
    }
  }

  lemma SeenChanLessens(workMap: map<Client, WorkChan>, c: Client)
    requires c in workMap && workMap[c] != Nil
    ensures MapTotal(workMap[c := Nil], ChanRank()) < MapTotal(workMap, ChanRank())
  {
    MapTotalUpdate(workMap, c, Nil, ChanRank());
  }

  lemma LeftIgnoresResults(s: Engine, resultsClosed: set<Client>, panicked: bool)
    ensures Left(s.(resultsClosed := resultsClosed, panicked := panicked)) == Left(s)
  {
  }

  lemma SeenLessens(s: Engine, c: Client)
    requires c in s.workMap && s.workMap[c] != Nil
    ensures Left(s.(workMap := s.workMap[c := Nil])) < Left(s)
  {
    SeenChanLessens(s.workMap, c);
  }

  lemma SeeClosedLessens(s: Engine, c: Client)
    requires c in s.workMap && s.workMap[c] != Nil
    ensures Left(AfterSeeClosed(s, c)) < Left(s)
  {
    var s1 := s.(workMap := s.workMap[c := Nil]);
    SeenLessens(s, c);
    LeftIgnoresResults(s1, s1.resultsClosed + {c}, s1.panicked || c in s1.resultsClosed);
  }

  lemma SubmitLessens(s: Engine)
    requires Invariant(s) && Enabled(s, Submit)
    ensures Left(AfterSubmit(s)) < Left(s)
  {
    MoveLessens(s.files, s.handler.file.value, if s.hasScheduler then Queued else AtWorker);
  }

  lemma WorkLessens(s: Engine, step: Step)
    requires Invariant(s) && Enabled(s, step)
    requires step.CloseWork? || step.SendWork? || step.LookupDone? || step.Take? || step.EndLookup? || step.Notify?
      || step.SeeWorkClosed? || step.CloseFiles? || step.SchedulerExit? || step.WorkerExit?
    ensures Left(Apply(s, step)) < Left(s)
  {
  }

  predicate MovesFile(step: Step) {
    step.Deliver? || step.ReceiveResult? || step.Submit? || step.Dispatch? || step.Report?
  }

  lemma FileStepLessens(s: Engine, step: Step)
    requires Invariant(s) && Enabled(s, step) && MovesFile(step)
    ensures Left(Apply(s, step)) < Left(s)
  {
    match step
    case Deliver(c) => DeliverLessens(s, c);
    case ReceiveResult => ReceiveLessens(s);
    case Submit => SubmitLessens(s);
    case Dispatch(f) => MoveLessens(s.files, f, AtWorker);
    case Report(f) => MoveLessens(s.files, f, InResults);
  }

  lemma StepLessens(s: Engine, step: Step)
    requires Invariant(s) && Enabled(s, step) && Drains(step)
    ensures Left(Apply(s, step)) < Left(s)
  {
    if MovesFile(step) {
      FileStepLessens(s, step);
    } else if step.SeeClosed? {
      SeeClosedLessens(s, step.c);
    } else {
      WorkLessens(s, step);
    }
  }

  // ----- Draining -----

  predicate SameCount(file: File, file': File) {
    file'.job == file.job && (file'.phase == Uncounted <==> file.phase == Uncounted)
  }

  /** The same files, and none of them given up. */
  predicate SameFiles(files: seq<File>, files': seq<File>) {
    |files'| == |files| && forall f :: 0 <= f < |files| ==> SameCount(files[f], files'[f])
  }

  lemma MoveKeepsFiles(files: seq<File>, f: FileId, phase: FilePhase)
    requires f < |files| && files[f].phase != Uncounted && phase != Uncounted
    ensures SameFiles(files, files[f := files[f].(phase := phase)])
  {
  }

  lemma DeliverKeepsRest(s: Engine, c: Client)
    requires Invariant(s) && Enabled(s, Deliver(c))
    ensures var s' := Apply(s, Deliver(c));
      SameFiles(s.files, s'.files) && s'.closing == s.closing && s'.muxDone == s.muxDone
  {
    assert s.tmpResults[c][0] in s.tmpResults[c];
    var f := s.tmpResults[c][0];
    DeliverReady(s, c, f);
    MoveKeepsFiles(s.files, f, Delivered);
  }

  /** The multiplexer ends in the step that counts off the last worker, and then leaves
      its buffers as they are. */
  lemma ReceiveKeepsRest(s: Engine)
    requires Invariant(s) && Enabled(s, ReceiveResult)
    ensures var s' := AfterReceiveResult(s);
      && SameFiles(s.files, s'.files) && s'.closing == s.closing
      && (s'.muxDone ==> s'.tmpResults == s.tmpResults)
  {
    if s.results[0].Some? {
      ReceivedWaited(s);
      MoveKeepsFiles(s.files, s.results[0].value, Buffered);
    }
  }

  lemma SubmitKeepsRest(s: Engine)
    requires Invariant(s) && Enabled(s, Submit)
    ensures var s' := AfterSubmit(s);
      SameFiles(s.files, s'.files) && s'.closing == s.closing && s'.muxDone == s.muxDone
  {
    MoveKeepsFiles(s.files, s.handler.file.value, if s.hasScheduler then Queued else AtWorker);
  }

  lemma FileStepKeepsRest(s: Engine, step: Step)
    requires Invariant(s) && Enabled(s, step) && !s.muxDone && MovesFile(step)
    ensures var s' := Apply(s, step);
      && SameFiles(s.files, s'.files) && s'.closing == s.closing
      && (s'.muxDone ==> step.ReceiveResult? && s'.tmpResults == s.tmpResults)
  {
    match step
    case Deliver(c) => DeliverKeepsRest(s, c);
    case ReceiveResult => ReceiveKeepsRest(s);
    case Submit => SubmitKeepsRest(s);
    case Dispatch(f) => MoveKeepsFiles(s.files, f, AtWorker);
    case Report(f) => MoveKeepsFiles(s.files, f, InResults);
  }

  lemma LookupDoneKeepsRest(s: Engine)
    requires s.jobLookupDone != [] && s.jobLookupDone[0] < |s.jobs|
    ensures var s' := AfterLookupDone(s); s'.files == s.files && s'.closing == s.closing && s'.muxDone == s.muxDone
  {
  }

  lemma WorkKeepsRest(s: Engine, step: Step)
    requires Indexed(s) && Enabled(s, step) && Drains(step) && !MovesFile(step)
    ensures var s' := Apply(s, step); s'.files == s.files && s'.closing == s.closing && s'.muxDone == s.muxDone
  {
    match step
    case LookupDone => LookupDoneKeepsRest(s);
    case SeeClosed(c) =>
      if c in s.activeJobs {
      } else {
      }
    case _ =>
  }

  /** `steps'` goes on from `steps` with draining steps alone. */
  predicate OnlyDrains(steps: seq<Step>, steps': seq<Step>) {
    steps <= steps' && forall k :: |steps| <= k < |steps'| ==> Drains(steps'[k])
  }

  lemma DrainOne(hasScheduler: bool, workers: nat, steps: seq<Step>, s: Engine) returns (step: Step, s': Engine)
    requires workers > 0 && Run(hasScheduler, workers, steps) == Some(s) && s.closing && !s.muxDone
    ensures Drains(step) && Run(hasScheduler, workers, steps + [step]) == Some(s')
    ensures SameFiles(s.files, s'.files) && s'.closing && 0 <= Left(s') < Left(s)
    ensures s'.muxDone ==> s'.tmpResults == map[]
  {
    RunKeepsInvariant(hasScheduler, workers, steps);
    step := NextStep(s);
    s' := Apply(s, step);
    StepLessens(s, step);
    if MovesFile(step) {
      FileStepKeepsRest(s, step);
    } else {
      WorkKeepsRest(s, step);
    }
    StepKeeps(s, step);
    LeftNotNegative(s');
    assert (steps + [step])[..|steps|] == steps;
  }

  lemma FilesStaySame(files: seq<File>, mid: seq<File>, files': seq<File>)
    requires SameFiles(files, mid) && SameFiles(mid, files')
    ensures SameFiles(files, files')
  {
    forall f | 0 <= f < |files| ensures SameCount(files[f], files'[f]) {
      assert SameCount(files[f], mid[f]) && SameCount(mid[f], files'[f]);
    }
  }

  lemma {:induction false} DrainAll(hasScheduler: bool, workers: nat, steps: seq<Step>, s: Engine, left: nat)
    returns (steps': seq<Step>, s': Engine)
    requires workers > 0 && Run(hasScheduler, workers, steps) == Some(s) && s.closing && !s.muxDone && Left(s) <= left
    ensures Run(hasScheduler, workers, steps') == Some(s') && OnlyDrains(steps, steps')
    ensures SameFiles(s.files, s'.files) && s'.muxDone && s'.tmpResults == map[]
    decreases left
  {
    var step, mid := DrainOne(hasScheduler, workers, steps, s);
    if mid.muxDone {
      steps', s' := steps + [step], mid;
    } else {
      steps', s' := DrainAll(hasScheduler, workers, steps + [step], mid, left - 1);
      FilesStaySame(s.files, mid.files, s'.files);
    }
  }

  /** From every reachable state of a closed engine whose multiplexer still runs there is
      a continuation, of draining steps alone, to its orderly end, and at that end every
      file that was counted has been delivered to its client. */
  lemma ClosedEngineCanBeDrained(hasScheduler: bool, workers: nat, steps: seq<Step>)
    returns (steps': seq<Step>, s': Engine)
    requires workers > 0 && Run(hasScheduler, workers, steps).Some?
    requires var s := Run(hasScheduler, workers, steps).value; s.closing && !s.muxDone
    ensures Run(hasScheduler, workers, steps') == Some(s') && OnlyDrains(steps, steps') && s'.muxDone
    ensures var s := Run(hasScheduler, workers, steps).value;
      && |s'.files| == |s.files|
      && forall f :: 0 <= f < |s.files| ==>
           s'.files[f].phase == if s.files[f].phase == Uncounted then Uncounted else Delivered
  {
    var s := Run(hasScheduler, workers, steps).value;
    RunKeepsInvariant(hasScheduler, workers, steps);
    LeftNotNegative(s);
    steps', s' := DrainAll(hasScheduler, workers, steps, s, Left(s));
    forall f | 0 <= f < |s.files|
      ensures s'.files[f].phase == if s.files[f].phase == Uncounted then Uncounted else Delivered
    {
      assert SameCount(s.files[f], s'.files[f]);
      OrderlyEndLosesNothing(hasScheduler, workers, steps', f);
    }
  }

  // ----- Every way of draining ends -----

  ghost predicate CanDrain(s: Engine)
    requires Indexed(s)
  {
    exists step :: Drains(step) && Enabled(s, step)
  }

  lemma FileStepKeepsFiles(s: Engine, step: Step)
    requires Invariant(s) && Enabled(s, step) && MovesFile(step)
    ensures SameFiles(s.files, Apply(s, step).files) && Apply(s, step).closing == s.closing
  {
    match step
    case Deliver(c) => DeliverKeepsRest(s, c);
    case ReceiveResult => ReceiveKeepsRest(s);
    case Submit => SubmitKeepsRest(s);
    case Dispatch(f) => MoveKeepsFiles(s.files, f, AtWorker);
    case Report(f) => MoveKeepsFiles(s.files, f, InResults);
  }

  lemma DrainKeepsFiles(s: Engine, step: Step)
    requires Invariant(s) && Enabled(s, step) && Drains(step)
    ensures SameFiles(s.files, Apply(s, step).files) && Apply(s, step).closing == s.closing
  {
    if MovesFile(step) {
      FileStepKeepsFiles(s, step);
    } else {
      WorkKeepsRest(s, step);
      FilesAreSame(s.files);
    }
  }

  lemma FilesAreSame(files: seq<File>)
    ensures SameFiles(files, files)
  {
  }

  /** The last of several draining steps. */
  lemma LastDrain(hasScheduler: bool, workers: nat, steps: seq<Step>, s: Engine) returns (mid: Engine)
    requires workers > 0 && steps != [] && Run(hasScheduler, workers, steps) == Some(s) && Drains(steps[|steps| - 1])
    ensures Run(hasScheduler, workers, steps[..|steps| - 1]) == Some(mid)
    ensures Left(s) < Left(mid) && SameFiles(mid.files, s.files) && s.closing == mid.closing
  {
    mid := Run(hasScheduler, workers, steps[..|steps| - 1]).value;
    RunKeepsInvariant(hasScheduler, workers, steps[..|steps| - 1]);
    StepLessens(mid, steps[|steps| - 1]);
    DrainKeepsFiles(mid, steps[|steps| - 1]);
  }

  lemma {:induction false} DrainingUsesUpWork(hasScheduler: bool, workers: nat, steps: seq<Step>, steps': seq<Step>,
                                              s: Engine, s': Engine)
    requires workers > 0 && Run(hasScheduler, workers, steps) == Some(s)
    requires Run(hasScheduler, workers, steps') == Some(s') && OnlyDrains(steps, steps')
    ensures |steps'| - |steps| + Left(s') <= Left(s) && SameFiles(s.files, s'.files) && s'.closing == s.closing
  {
    if |steps'| == |steps| {
      assert steps' == steps;
      FilesAreSame(s.files);
    } else {
      var mid := LastDrain(hasScheduler, workers, steps', s');
      DrainingUsesUpWork(hasScheduler, workers, steps, steps'[..|steps'| - 1], s, mid);
      FilesStaySame(s.files, mid.files, s'.files);
    }
  }

  lemma NobodyCanDrain(s: Engine)
    requires Invariant(s) && s.closing && !CanDrain(s)
    ensures s.muxDone
  {
    if !s.muxDone {
      var step := NextStep(s);
    }
  }

  /** In whatever order a closed engine is drained, from every reachable state: there are
      no more steps than the work left, and where none is possible any more the
      multiplexer has ended and every file that was counted is delivered or waits in the
      buffer of its client. */
  lemma DrainingEndsInOrder(hasScheduler: bool, workers: nat, steps: seq<Step>, steps': seq<Step>, f: FileId)
    requires workers > 0 && Run(hasScheduler, workers, steps).Some? && Run(hasScheduler, workers, steps').Some?
    requires Run(hasScheduler, workers, steps).value.closing && OnlyDrains(steps, steps')
    requires f < |Run(hasScheduler, workers, steps).value.files|
    ensures |steps'| - |steps| <= Left(Run(hasScheduler, workers, steps).value)
    ensures Indexed(Run(hasScheduler, workers, steps').value)
    ensures var s, s' := Run(hasScheduler, workers, steps).value, Run(hasScheduler, workers, steps').value;
      && |s'.files| == |s.files|
      && (!CanDrain(s') ==>
            && s'.muxDone
            && (s'.files[f].phase == Uncounted <==> s.files[f].phase == Uncounted)
            && (s'.files[f].phase == Uncounted || s'.files[f].phase == Delivered
                || exists c :: c in s'.tmpResults && f in s'.tmpResults[c]))
  {
    var s, s' := Run(hasScheduler, workers, steps).value, Run(hasScheduler, workers, steps').value;
    DrainingUsesUpWork(hasScheduler, workers, steps, steps', s, s');
    RunKeepsInvariant(hasScheduler, workers, steps');
    LeftNotNegative(s');
    assert SameCount(s.files[f], s'.files[f]);
    if !CanDrain(s') {
      NobodyCanDrain(s');
      OrderlyEndLosesNothing(hasScheduler, workers, steps', f);
    }
  }
}
