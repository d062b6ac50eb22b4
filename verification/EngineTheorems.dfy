/** The promises of the transfer engine, for every run that is not cancelled. */
module EngineTheorems {
  import opened Collections
  import opened EngineState
  import opened EngineSafety

  /** A job's activeXfer is the number of its files that are counted and whose result
      is not delivered; finishJob has run once if the lookup is done and none is left,
      and not at all otherwise. */
  lemma JobsRetireExactlyOnce(hasScheduler: bool, workers: nat, steps: seq<Step>, j: JobId)
    requires workers > 0 && Run(hasScheduler, workers, steps).Some?
    requires j < |Run(hasScheduler, workers, steps).value.jobs|
    ensures var s := Run(hasScheduler, workers, steps).value;
      && s.jobs[j].active == Sum(s.files, OutstandingShare(j))
      && s.jobs[j].finishes == (if s.jobs[j].stage == LookedUp && NothingOutstanding(s, j) then 1 else 0)
  {
    RunKeepsInvariant(hasScheduler, workers, steps);
    var s := Run(hasScheduler, workers, steps).value;
    assert LedgerValid(s.jobs[j], j, s.files);
    if NothingOutstanding(s, j) {
      NoShares(s.files, j);
    } else {
      SumBoundsTerm(s.files, OutstandingShare(j));
      var f :| 0 <= f < |s.files| && s.files[f].job == j && s.files[f].Outstanding();
      assert OutstandingShare(j)(s.files[f]) == 1;
    }
  }

  predicate NothingOutstanding(s: Engine, j: JobId) {
    forall f :: 0 <= f < |s.files| && s.files[f].job == j ==> !s.files[f].Outstanding()
  }

  lemma {:induction false} NoShares(files: seq<File>, j: JobId)
    requires forall f :: 0 <= f < |files| && files[f].job == j ==> !files[f].Outstanding()
    ensures Sum(files, OutstandingShare(j)) == 0
  {
    if files != [] {
      NoShares(files[..|files| - 1], j);
    }
  }

  lemma TestRetires(jobs: seq<Job>, activeJobs: map<Client, seq<JobId>>, workMap: map<Client, WorkChan>,
                    resultsClosed: set<Client>, j: JobId, c: Client)
    requires j < |jobs|
    ensures var r := TestJob(jobs, activeJobs, workMap, resultsClosed, j, c);
      && |r.jobs| == |jobs|
      && r.jobs[j].finishes == jobs[j].finishes + (if jobs[j].Finished() then 1 else 0)
      && forall i :: 0 <= i < |jobs| && i != j ==> r.jobs[i] == jobs[i]
  {
  }

  lemma NoneOutstanding(files: seq<File>, j: JobId)
    requires Sum(files, OutstandingShare(j)) == 0
    ensures forall f :: 0 <= f < |files| && files[f].job == j ==> !files[f].Outstanding()
  {
    SumBoundsTerm(files, OutstandingShare(j));
    forall f | 0 <= f < |files| && files[f].job == j ensures !files[f].Outstanding() {
      assert OutstandingShare(j)(files[f]) <= 0;
    }
  }

  lemma RetiredByLookup(s: Engine, j: JobId)
    requires Indexed(s) && s.jobLookupDone != [] && j < |s.jobs| && LedgerValid(s.jobs[j], j, s.files)
    ensures j < |AfterLookupDone(s).jobs| && s.jobs[j].finishes <= AfterLookupDone(s).jobs[j].finishes
    ensures AfterLookupDone(s).jobs[j].finishes > s.jobs[j].finishes ==>
      s.jobLookupDone[0] == j && NothingOutstanding(s, j)
  {
    var j0 := s.jobLookupDone[0];
    var s1 := SetStage(s, j0, LookedUp);
    TestRetires(s1.jobs, s.activeJobs, s.workMap, s.resultsClosed, j0, s.jobs[j0].client);
    if s.jobs[j].active == 0 {
      NoneOutstanding(s.files, j);
    }
  }

  lemma RetiredByDelivery(s: Engine, c: Client, f: FileId, j: JobId)
    requires Indexed(s) && Entry(s.tmpResults, c) != [] && j < |s.jobs| && LedgerValid(s.jobs[j], j, s.files)
    requires f == s.tmpResults[c][0] && f < |s.files|
    ensures j < |AfterDeliver(s, c).jobs| && s.jobs[j].finishes <= AfterDeliver(s, c).jobs[j].finishes
    ensures AfterDeliver(s, c).jobs[j].finishes > s.jobs[j].finishes ==>
      s.files[f].job == j && s.jobs[j].stage == LookedUp && Sum(s.files, OutstandingShare(j)) == 1
  {
  }

  lemma ClientStepsRetireNothing(s: Engine, step: Step)
    requires Indexed(s) && Enabled(s, step)
    requires step.NewClient? || step.CloseClient? || step.SeeClosed? || step.CloseWork? || step.CloseEngine?
    ensures Apply(s, step).jobs == s.jobs
  {
  }

  lemma ReceivedResultRetiresNothing(s: Engine)
    requires s.results != []
    requires s.results[0].Some? ==> s.results[0].value < |s.files| && s.files[s.results[0].value].job < |s.jobs|
    ensures AfterReceiveResult(s).jobs == s.jobs
  {
    var r := s.results[0];
    if r.None? {
      assert AfterReceiveResult(s).jobs == s.jobs;
    } else {
      assert AfterReceiveResult(s).jobs == s.jobs;
    }
  }

  predicate IsHandlerStep(step: Step) {
    step.Take? || step.Count? || step.Submit? || step.Shed? || step.FailSubmit? || step.EndLookup? || step.Notify?
    || step.SeeWorkClosed? || step.CloseFiles?
  }

  lemma HandlerStepsRetireNothing(s: Engine, step: Step, j: JobId)
    requires Indexed(s) && Enabled(s, step) && j < |s.jobs| && IsHandlerStep(step)
    ensures j < |Apply(s, step).jobs| && s.jobs[j].finishes == Apply(s, step).jobs[j].finishes
  {
    match step
    case Take =>
    case Count =>
    case FailSubmit =>
    case Notify =>
    case _ =>
  }

  lemma OtherStepsRetireNothing(s: Engine, step: Step, j: JobId)
    requires Indexed(s) && Enabled(s, step) && j < |s.jobs|
    requires step.ReceiveJob? || step.SendWork? || step.Dispatch? || step.Drop? || step.SchedulerExit?
      || step.Report? || step.WorkerExit?
    ensures j < |Apply(s, step).jobs| && s.jobs[j].finishes == Apply(s, step).jobs[j].finishes
  {
    match step
    case ReceiveJob(_) =>
    case SendWork =>
    case _ =>
  }

  /** A step that retires a job is the delivery of its last outstanding result or the
      end of its lookup, whichever comes last, and no step takes a retirement back. */
  lemma RetirementIsTheLastEvent(s: Engine, step: Step, j: JobId)
    requires Invariant(s) && Enabled(s, step) && j < |s.jobs|
    ensures j < |Apply(s, step).jobs| && s.jobs[j].finishes <= Apply(s, step).jobs[j].finishes
    ensures Apply(s, step).jobs[j].finishes > s.jobs[j].finishes ==>
      || (step.LookupDone? && s.jobLookupDone[0] == j && NothingOutstanding(s, j))
      || (step.Deliver? && s.jobs[j].stage == LookedUp && Sum(s.files, OutstandingShare(j)) == 1
          && s.tmpResults[step.c][0] < |s.files| && s.files[s.tmpResults[step.c][0]].job == j)
  {
    assert LedgerValid(s.jobs[j], j, s.files);
    if step.LookupDone? {
      RetiredByLookup(s, j);
    } else if step.Deliver? {
      assert s.tmpResults[step.c][0] in s.tmpResults[step.c];
      RetiredByDelivery(s, step.c, s.tmpResults[step.c][0], j);
    } else if step.ReceiveResult? {
      ReceivedResultRetiresNothing(s);
    } else if step.NewClient? || step.CloseClient? || step.SeeClosed? || step.CloseWork? || step.CloseEngine? {
      ClientStepsRetireNothing(s, step);
    } else if IsHandlerStep(step) {
      HandlerStepsRetireNothing(s, step, j);
    } else {
      OtherStepsRetireNothing(s, step, j);
    }
  }

  /** No channel is closed twice or sent on after its close: a client's results
      channel, te.work and te.files. */
  lemma NoChannelPanics(hasScheduler: bool, workers: nat, steps: seq<Step>)
    requires workers > 0 && Run(hasScheduler, workers, steps).Some?
    ensures !Run(hasScheduler, workers, steps).value.panicked
  {
    RunKeepsInvariant(hasScheduler, workers, steps);
  }

  lemma BufferedClientIsActive(s: Engine, c: Client)
    requires Invariant(s)
    ensures c in s.tmpResults ==> c in s.activeJobs
  {
    if c in s.tmpResults {
      var f := s.tmpResults[c][0];
      assert f in s.tmpResults[c];
      OccursPositive(s.tmpResults[c], f);
      assert BufferedRight(s.files[f], f, s.jobs[s.files[f].job].client, s.tmpResults, c);
      OutstandingFileKeepsJob(s.jobs, s.files, s.activeJobs, f);
    }
  }

  /** A client's results channel is closed exactly when the client is gone and has no
      unfinished job, and then every counted file of it has been delivered. */
  lemma ClosedMeansDelivered(hasScheduler: bool, workers: nat, steps: seq<Step>, c: Client)
    requires workers > 0 && Run(hasScheduler, workers, steps).Some?
    ensures var s := Run(hasScheduler, workers, steps).value;
      && (c in s.resultsClosed <==>
            && c in s.workMap && s.workMap[c] == Nil
            && forall j :: 0 <= j < |s.jobs| && s.jobs[j].client == c ==> s.jobs[j].Finished())
      && (c in s.resultsClosed ==>
            && c !in s.tmpResults
            && forall f :: 0 <= f < |s.files| && s.files[f].job < |s.jobs| && s.jobs[s.files[f].job].client == c ==>
                 !s.files[f].Outstanding())
  {
    RunKeepsInvariant(hasScheduler, workers, steps);
    var s := Run(hasScheduler, workers, steps).value;
    assert ClosedRight(s.resultsClosed, s.workMap, s.activeJobs, c);
    if c !in s.activeJobs {
      forall j | 0 <= j < |s.jobs| && s.jobs[j].client == c ensures s.jobs[j].Finished() {
        assert ListedRight(s.jobs[j], j, s.activeJobs, c);
      }
    } else {
      var j := s.activeJobs[c][0];
      assert j in s.activeJobs[c];
      OccursPositive(s.activeJobs[c], j);
      assert ListedRight(s.jobs[j], j, s.activeJobs, c);
    }
    BufferedClientIsActive(s, c);
    if c in s.resultsClosed {
      forall f | 0 <= f < |s.files| && s.jobs[s.files[f].job].client == c ensures !s.files[f].Outstanding() {
        if s.files[f].Outstanding() {
          OutstandingFileKeepsJob(s.jobs, s.files, s.activeJobs, f);
        }
      }
    }
  }

  /** A buffered job always has a client channel still open; te.files is closed only
      after the scheduler is gone, and with it every way to send a file. */
  lemma ChannelsCloseInOrder(hasScheduler: bool, workers: nat, steps: seq<Step>)
    requires workers > 0 && Run(hasScheduler, workers, steps).Some?
    ensures var s := Run(hasScheduler, workers, steps).value;
      && (s.clientJob.Some? ==> !s.workClosed && exists c :: c in s.workMap && s.workMap[c] != Nil)
      && (s.filesClosed ==> !s.schedulerUp && s.handler.Exited? && s.work == [])
      && (s.filesClosed ==>
            forall f :: 0 <= f < |s.files| ==> s.files[f].phase != Submitting && s.files[f].phase != Queued)
  {
    RunKeepsInvariant(hasScheduler, workers, steps);
    var s := Run(hasScheduler, workers, steps).value;
    if s.clientJob.Some? {
      var c := s.jobs[s.clientJob.value].client;
      assert c in s.workMap && s.workMap[c] != Nil;
    }
    forall f | 0 <= f < |s.files| && s.filesClosed
      ensures s.files[f].phase != Submitting && s.files[f].phase != Queued
    {
      assert FileValid(s.files[f], f, s.results, s.handler, s.schedulerUp);
    }
  }

  /** When the multiplexer reports an orderly end, no result is left on its way: every
      counted file is delivered or waits in the buffer of its client. */
  lemma OrderlyEndLosesNothing(hasScheduler: bool, workers: nat, steps: seq<Step>, f: FileId)
    requires workers > 0 && Run(hasScheduler, workers, steps).Some?
    requires Run(hasScheduler, workers, steps).value.muxDone
    requires f < |Run(hasScheduler, workers, steps).value.files|
    ensures var s := Run(hasScheduler, workers, steps).value;
      s.files[f].phase == Delivered || s.files[f].phase == Uncounted
      || exists c :: c in s.tmpResults && f in s.tmpResults[c]
  {
    RunKeepsInvariant(hasScheduler, workers, steps);
    ChannelsCloseInOrder(hasScheduler, workers, steps);
    var s := Run(hasScheduler, workers, steps).value;
    assert FileValid(s.files[f], f, s.results, s.handler, s.schedulerUp);
    SumBoundsTerm(s.files, AtWorkerShare());
    assert AtWorkerShare()(s.files[f]) <= 0;
    if s.files[f].phase == Buffered {
      var c := s.jobs[s.files[f].job].client;
      assert BufferedRight(s.files[f], f, c, s.tmpResults, c);
      OccursPositive(Entry(s.tmpResults, c), f);
    }
  }
}
