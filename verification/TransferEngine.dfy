/** The multiplexer and the job handler of the engine as they work: in place, on the
    engine's maps, counters and channels. Every method carries out one event. */
module TransferEngines {
  import opened Collections
  import opened EngineState

  class TransferEngine {
    const hasScheduler: bool
    var jobs: seq<Job>
    var files: seq<File>
    var workMap: map<Client, WorkChan>
    var resultsClosed: set<Client>
    var clientJob: Option<JobId>
    var work: seq<JobId>
    var workClosed: bool
    var handler: Handler
    var jobLookupDone: seq<JobId>
    var schedulerUp: bool
    var filesClosed: bool
    var workersUp: nat
    var results: seq<Option<FileId>>
    var tmpResults: map<Client, seq<FileId>>
    var activeJobs: map<Client, seq<JobId>>
    var workersActive: int
    var closing: bool
    var muxDone: bool
    var panicked: bool

    ghost function State(): Engine
      reads this
    {
      Engine(hasScheduler, jobs, files, workMap, resultsClosed, clientJob, work, workClosed, handler, jobLookupDone,
             schedulerUp, filesClosed, workersUp, results, tmpResults, activeJobs, workersActive, closing, muxDone,
             panicked)
    }

    constructor (hasScheduler: bool, workers: nat)
      ensures State() == Start(hasScheduler, workers)
    {
      this.hasScheduler := hasScheduler;
      jobs, files, workMap, resultsClosed := [], [], map[], {};
      clientJob, work, workClosed, handler, jobLookupDone := None, [], false, Idle, [];
      schedulerUp, filesClosed, workersUp := hasScheduler, false, workers;
      results, tmpResults, activeJobs, workersActive := [], map[], map[], workers;
      closing, muxDone, panicked := false, false, false;
    }

    method CloseResultsOf(c: Client)
      modifies this`resultsClosed, this`panicked
      ensures resultsClosed == old(resultsClosed) + {c}
      ensures panicked == (old(panicked) || c in old(resultsClosed))
    {
      if c in resultsClosed {
        panicked := true;
      }
      resultsClosed := resultsClosed + {c};
    }

    /** The scan that rebuilds a client's list without the retired job. */
    method ListWithout(list: seq<JobId>, j: JobId) returns (kept: seq<JobId>)
      ensures kept == Without(list, j)
    {
      kept := [];
      for i := 0 to |list|
        invariant kept == Without(list[..i], j)
      {
        SelectAppend(list[..i], list[i], (k: JobId) => k != j);
        assert list[..i + 1] == list[..i] + [list[i]];
        if list[i] != j {
          kept := kept + [list[i]];
        }
      }
      assert list[..|list|] == list;
    }

    method Finish(j: JobId, c: Client)
      requires j < |jobs|
      modifies this`jobs, this`activeJobs, this`resultsClosed, this`panicked
      ensures var r := FinishJob(old(jobs), old(activeJobs), workMap, old(resultsClosed), j, c);
        && jobs == r.jobs && activeJobs == r.activeJobs && resultsClosed == r.resultsClosed
        && panicked == (old(panicked) || r.panics)
    {
      jobs := WithFinish(jobs, j);
      var mine := if c in activeJobs then activeJobs[c] else [];
      if |mine| <= 1 {
        activeJobs := activeJobs - {c};
        if !(c in workMap && workMap[c] != Nil) {
          CloseResultsOf(c);
        }
      } else {
        var kept := ListWithout(mine, j);
        activeJobs := activeJobs[c := kept];
      }
    }

    /** The test applied as each result arrives and as each lookup ends. */
    method RetireIfDone(j: JobId, c: Client)
      requires j < |jobs|
      modifies this`jobs, this`activeJobs, this`resultsClosed, this`panicked
      ensures State() == FinishIfDone(old(State()), j, c)
    {
      if jobs[j].Finished() {
        Finish(j, c);
      }
    }

    /** A client's job arrives on its work channel. */
    method OnJob(c: Client)
      modifies this`jobs, this`clientJob, this`activeJobs
      ensures State() == AfterReceiveJob(old(State()), c)
    {
      var j := |jobs|;
      jobs := jobs + [Job(c, Accepted, 0, 0)];
      clientJob := Some(j);
      var clientJobs := if c in activeJobs then activeJobs[c] else [];
      activeJobs := activeJobs[c := clientJobs + [j]];
    }

    /** A client's work channel turns out to be closed. */
    method OnWorkClosed(c: Client)
      modifies this`workMap, this`resultsClosed, this`panicked
      ensures State() == AfterSeeClosed(old(State()), c)
    {
      workMap := workMap[c := Nil];
      if c !in activeJobs {
        CloseResultsOf(c);
      }
    }

    /** The buffered job goes to the job handler. */
    method OnWorkSent()
      requires clientJob.Some? && clientJob.value < |jobs|
      modifies this`jobs, this`clientJob, this`work, this`panicked
      ensures State() == AfterSendWork(old(State()))
    {
      if workClosed {
        panicked := true;
      }
      var j := clientJob.value;
      work := work + [j];
      jobs := jobs[j := jobs[j].(stage := InWork)];
      clientJob := None;
    }

    /** A result, or the notice of a worker's exit, arrives. */
    method OnResult()
      requires results != []
      requires results[0].Some? ==> results[0].value < |files| && files[results[0].value].job < |jobs|
      modifies this`results, this`files, this`tmpResults, this`workersActive, this`muxDone
      ensures State() == AfterReceiveResult(old(State()))
    {
      var r := results[0];
      results := results[1..];
      if r.None? {
        workersActive := workersActive - 1;
        muxDone := workersActive == 0;
      } else {
        BufferResult(r.value, jobs[files[r.value].job].client);
      }
    }

    method BufferResult(f: FileId, c: Client)
      requires f < |files|
      modifies this`files, this`tmpResults
      ensures State() == SetPhase(old(State()), f, Buffered).(
        tmpResults := old(tmpResults)[c := Entry(old(tmpResults), c) + [f]])
    {
      var buffer := if c in tmpResults then tmpResults[c] else [];
      files := files[f := files[f].(phase := Buffered)];
      tmpResults := tmpResults[c := buffer + [f]];
    }

    /** The first buffered result of a client was sent: the count goes down, the job
        may be retired, and only then the buffer moves on. */
    method OnDelivered(c: Client)
      requires c in tmpResults && tmpResults[c] != []
      requires tmpResults[c][0] < |files| && files[tmpResults[c][0]].job < |jobs|
      modifies this
      ensures State() == AfterDeliver(old(State()), c)
    {
      var f := tmpResults[c][0];
      var j := files[f].job;
      MarkDelivered(c, f, j);
      RetireIfDone(j, c);
      PopBuffer(c);
    }

    method MarkDelivered(c: Client, f: FileId, j: JobId)
      requires f < |files| && j < |jobs|
      modifies this`files, this`jobs, this`panicked
      ensures var sent := old(State()).(panicked := old(panicked) || c in resultsClosed);
        State() == AddActive(SetPhase(sent, f, Delivered), j, -1)
    {
      if c in resultsClosed {
        panicked := true;
      }
      files := files[f := files[f].(phase := Delivered)];
      jobs := jobs[j := jobs[j].(active := jobs[j].active - 1)];
    }

    method PopBuffer(c: Client)
      requires Entry(tmpResults, c) != []
      modifies this`tmpResults
      ensures State() == old(State()).(tmpResults := Popped(old(tmpResults), c))
    {
      if |tmpResults[c]| == 1 {
        tmpResults := tmpResults - {c};
      } else {
        tmpResults := tmpResults[c := tmpResults[c][1..]];
      }
    }

    /** The lookup of a job ended, in success or failure. */
    method OnLookupDone()
      requires jobLookupDone != [] && jobLookupDone[0] < |jobs|
      modifies this
      ensures State() == AfterLookupDone(old(State()))
    {
      var j := jobLookupDone[0];
      jobLookupDone := jobLookupDone[1..];
      jobs := jobs[j := jobs[j].(stage := LookedUp)];
      ghost var looked := State();
      assert looked == SetStage(old(State()), j, LookedUp).(jobLookupDone := jobLookupDone);
      RetireIfDone(j, jobs[j].client);
    }

    /** The engine is closed: so is every client's work channel that is still open. */
    method OnClose()
      modifies this`closing, this`workMap
      ensures State() == AfterClose(old(State()))
    {
      closing := true;
      var rest := workMap.Keys;
      while rest != {}
        invariant closing && rest <= workMap.Keys == old(workMap).Keys
        invariant forall c :: c in workMap ==>
          workMap[c] == if c in rest then old(workMap)[c] else Shut(old(workMap)[c])
      {
        var c :| c in rest;
        rest := rest - {c};
        if workMap[c] == Open {
          workMap := workMap[c := Closed];
        }
      }
      assert workMap == ShutAll(old(workMap));
    }

    /** The head of the multiplexer's loop. */
    method CloseWorkIfIdle()
      modifies this`workClosed, this`panicked
      ensures State() == if closing && AllNil(workMap) && !old(workClosed) then AfterCloseWork(old(State()))
                         else old(State())
    {
      if closing && AllNil(workMap) && !workClosed {
        workClosed := true;
      }
    }

    /** The job handler counts a file before it submits it. */
    method CountFile()
      requires handler.Busy? && handler.job < |jobs|
      modifies this`jobs, this`files, this`handler
      ensures State() == AfterCount(old(State()))
    {
      var j := handler.job;
      jobs := jobs[j := jobs[j].(active := jobs[j].active + 1)];
      handler := Busy(j, Some(|files|));
      files := files + [File(j, Submitting)];
    }

    /** submitFile, when the scheduler admits the file or a worker takes it. */
    method SubmitTaken()
      requires InSubmission(State())
      modifies this`files, this`handler, this`panicked
      ensures State() == AfterSubmit(old(State()))
    {
      var f := handler.file.value;
      if hasScheduler {
        files := files[f := files[f].(phase := Queued)];
      } else {
        if filesClosed {
          panicked := true;
        }
        files := files[f := files[f].(phase := AtWorker)];
      }
      handler := Busy(handler.job, None);
    }

    /** submitFile, when the scheduler sheds the file: the synthetic result keeps the
        count matched. */
    method SubmitShed()
      requires InSubmission(State())
      modifies this`files, this`handler, this`results
      ensures State() == AfterShed(old(State()))
    {
      var f := handler.file.value;
      files := files[f := files[f].(phase := InResults)];
      results := results + [Some(f)];
      handler := Busy(handler.job, None);
    }

    /** Any other failed submission, followed by uncountSubmission. */
    method SubmitFailed()
      requires InSubmission(State())
      modifies this`jobs, this`files, this`handler
      ensures State() == AfterFailedSubmit(old(State()))
    {
      var j, f := handler.job, handler.file.value;
      files := files[f := files[f].(phase := Uncounted)];
      jobs := jobs[j := jobs[j].(active := jobs[j].active - 1)];
      handler := Busy(j, None);
    }
  }
}
