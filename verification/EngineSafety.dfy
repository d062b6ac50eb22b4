/** Every step of the transfer engine keeps its invariant. */
module EngineSafety {
  import opened Collections
  import opened EngineState

  lemma OccurrencesTail<T>(s: seq<T>, x: T)
    requires s != []
    ensures Occurrences(s, x) == (if s[0] == x then 1 else 0) + Occurrences(s[1..], x)
  {
    assert s == [s[0]] + s[1..];
  }

  lemma OccurrencesAppend<T>(s: seq<T>, y: T, x: T)
    ensures Occurrences(s + [y], x) == Occurrences(s, x) + (if x == y then 1 else 0)
  {
  }

  lemma OccursPositive<T>(s: seq<T>, x: T)
    ensures x in s <==> Occurrences(s, x) > 0
  {
  }

  /** The sums over the files after one of them changes. */
  lemma FileChange(s: Engine, f: FileId, x: File)
    requires f < |s.files|
    ensures forall j :: Sum(s.files[f := x], OutstandingShare(j))
                     == Sum(s.files, OutstandingShare(j)) - OutstandingShare(j)(s.files[f]) + OutstandingShare(j)(x)
    ensures Sum(s.files[f := x], AtWorkerShare())
         == Sum(s.files, AtWorkerShare()) - AtWorkerShare()(s.files[f]) + AtWorkerShare()(x)
  {
    SumUpdate(s.files, f, x, AtWorkerShare());
    forall j
      ensures Sum(s.files[f := x], OutstandingShare(j))
           == Sum(s.files, OutstandingShare(j)) - OutstandingShare(j)(s.files[f]) + OutstandingShare(j)(x)
    {
      SumUpdate(s.files, f, x, OutstandingShare(j));
    }
  }

  /** A file that is not delivered keeps its job, and so its client, on the books. */
  lemma OutstandingFileKeepsJob(jobs: seq<Job>, files: seq<File>, activeJobs: map<Client, seq<JobId>>, f: FileId)
    requires FilesIndexed(files, |jobs|) && LedgerBalances(jobs, files) && ActiveJobsValid(jobs, activeJobs)
    requires f < |files| && files[f].Outstanding()
    ensures var j := files[f].job;
      jobs[j].active >= 1 && jobs[j].client in activeJobs && j in activeJobs[jobs[j].client]
  {
    var j := files[f].job;
    assert LedgerValid(jobs[j], j, files);
    SumBoundsTerm(files, OutstandingShare(j));
    assert OutstandingShare(j)(files[f]) == 1;
    assert ListedRight(jobs[j], j, activeJobs, jobs[j].client);
    OccursPositive(Entry(activeJobs, jobs[j].client), j);
  }

  // ----- Clients come and go -----

  lemma NewClientKeeps(s: Engine, c: Client)
    requires Invariant(s) && Enabled(s, NewClient(c))
    ensures Invariant(Apply(s, NewClient(c)))
  {
    var s' := Apply(s, NewClient(c));
    forall x ensures ClosedRight(s'.resultsClosed, s'.workMap, s'.activeJobs, x) {
      assert ClosedRight(s.resultsClosed, s.workMap, s.activeJobs, x);
    }
  }

  lemma CloseClientKeeps(s: Engine, c: Client)
    requires Invariant(s) && Enabled(s, CloseClient(c))
    ensures Invariant(Apply(s, CloseClient(c)))
  {
    var s' := Apply(s, CloseClient(c));
    forall x ensures ClosedRight(s'.resultsClosed, s'.workMap, s'.activeJobs, x) {
      assert ClosedRight(s.resultsClosed, s.workMap, s.activeJobs, x);
    }
  }

  lemma CloseEngineKeeps(s: Engine)
    requires Invariant(s)
    ensures Invariant(AfterClose(s))
  {
    var s' := AfterClose(s);
    forall x ensures ClosedRight(s'.resultsClosed, s'.workMap, s'.activeJobs, x) {
      assert ClosedRight(s.resultsClosed, s.workMap, s.activeJobs, x);
    }
  }

  lemma NilKeepsClosed(resultsClosed: set<Client>, workMap: map<Client, WorkChan>, activeJobs: map<Client, seq<JobId>>,
                       c: Client)
    requires ResultsClosedValid(resultsClosed, workMap, activeJobs) && c in workMap && workMap[c] != Nil
    ensures c !in resultsClosed
    ensures ResultsClosedValid(if c in activeJobs then resultsClosed else resultsClosed + {c},
                               workMap[c := Nil], activeJobs)
  {
    assert ClosedRight(resultsClosed, workMap, activeJobs, c);
    var workMap' := workMap[c := Nil];
    var closed' := if c in activeJobs then resultsClosed else resultsClosed + {c};
    forall x ensures ClosedRight(closed', workMap', activeJobs, x) {
      assert ClosedRight(resultsClosed, workMap, activeJobs, x);
    }
  }

  lemma NilSparesChannels(workMap: map<Client, WorkChan>, c: Client)
    requires c in workMap
    ensures AllNil(workMap) ==> AllNil(workMap[c := Nil])
    ensures NoneOpen(workMap) ==> NoneOpen(workMap[c := Nil])
  {
  }

  lemma SeeClosedKeepsChannels(s: Engine, c: Client)
    requires Indexed(s) && ChannelsValid(s) && Enabled(s, SeeClosed(c)) && c !in s.resultsClosed
    ensures ChannelsValid(AfterSeeClosed(s, c))
  {
    NilSparesChannels(s.workMap, c);
    if c in s.activeJobs {
      assert AfterSeeClosed(s, c) == s.(workMap := s.workMap[c := Nil]);
    } else {
      assert AfterSeeClosed(s, c) == s.(workMap := s.workMap[c := Nil], resultsClosed := s.resultsClosed + {c});
    }
  }

  lemma SeeClosedKeeps(s: Engine, c: Client)
    requires Invariant(s) && Enabled(s, SeeClosed(c))
    ensures Invariant(AfterSeeClosed(s, c))
  {
    NilKeepsClosed(s.resultsClosed, s.workMap, s.activeJobs, c);
    SeeClosedKeepsChannels(s, c);
    if c in s.activeJobs {
    } else {
    }
  }

  // ----- Jobs travel through the lookup -----

  lemma {:induction false} FreshJobLedger(files: seq<File>, n: nat)
    requires FilesIndexed(files, n)
    ensures Sum(files, OutstandingShare(n)) == 0
  {
    if files != [] {
      FreshJobLedger(files[..|files| - 1], n);
    }
  }

  lemma ReceiveJobKeepsStages(s: Engine, c: Client)
    requires Indexed(s) && Enabled(s, ReceiveJob(c)) && LedgerBalances(s.jobs, s.files)
    requires StagesValid(s.jobs, s.clientJob, s.work, s.handler, s.jobLookupDone)
    ensures var s' := AfterReceiveJob(s, c);
      && StagesValid(s'.jobs, s'.clientJob, s'.work, s'.handler, s'.jobLookupDone)
      && LedgerBalances(s'.jobs, s'.files)
  {
    var s' := AfterReceiveJob(s, c);
    var n := |s.jobs|;
    FreshJobLedger(s.files, n);
    forall j | 0 <= j < n + 1
      ensures StageValid(s'.jobs[j].stage, j, s'.clientJob, s'.work, s'.handler, s'.jobLookupDone)
      ensures LedgerValid(s'.jobs[j], j, s'.files)
    {
      if j < n {
        assert StageValid(s.jobs[j].stage, j, s.clientJob, s.work, s.handler, s.jobLookupDone);
        assert LedgerValid(s.jobs[j], j, s.files);
      } else {
        OccursPositive(s.work, n);
        OccursPositive(s.jobLookupDone, n);
      }
    }
  }

  lemma ReceiveJobKeepsLists(s: Engine, c: Client)
    requires Indexed(s) && Enabled(s, ReceiveJob(c)) && ActiveJobsValid(s.jobs, s.activeJobs)
    requires ResultsClosedValid(s.resultsClosed, s.workMap, s.activeJobs)
    ensures var s' := AfterReceiveJob(s, c);
      && ActiveJobsValid(s'.jobs, s'.activeJobs)
      && ResultsClosedValid(s'.resultsClosed, s'.workMap, s'.activeJobs)
  {
    var s' := AfterReceiveJob(s, c);
    var n := |s.jobs|;
    forall x, j | 0 <= j < n + 1
      ensures ListedRight(s'.jobs[j], j, s'.activeJobs, x)
    {
      OccursPositive(Entry(s.activeJobs, x), n);
      if j < n { assert ListedRight(s.jobs[j], j, s.activeJobs, x); }
    }
    forall x ensures ClosedRight(s'.resultsClosed, s'.workMap, s'.activeJobs, x) {
      assert ClosedRight(s.resultsClosed, s.workMap, s.activeJobs, x);
    }
  }

  lemma ReceiveJobKeepsBuffers(s: Engine, c: Client)
    requires Indexed(s) && BuffersValid(s.jobs, s.files, s.tmpResults)
    ensures FilesIndexed(s.files, |s.jobs| + 1) && BuffersValid(AfterReceiveJob(s, c).jobs, s.files, s.tmpResults)
  {
    var s' := AfterReceiveJob(s, c);
    forall x, f | 0 <= f < |s.files|
      ensures BufferedRight(s'.files[f], f, s'.jobs[s'.files[f].job].client, s'.tmpResults, x)
    {
      assert BufferedRight(s.files[f], f, s.jobs[s.files[f].job].client, s.tmpResults, x);
    }
  }

  lemma ReceiveJobKeeps(s: Engine, c: Client)
    requires Invariant(s) && Enabled(s, ReceiveJob(c))
    ensures Invariant(AfterReceiveJob(s, c))
  {
    ReceiveJobKeepsStages(s, c);
    ReceiveJobKeepsLists(s, c);
    ReceiveJobKeepsBuffers(s, c);
  }

  /** Jobs that only moved between the stages before the end of the lookup. */
  predicate SameButStage(jobs: seq<Job>, jobs': seq<Job>) {
    && |jobs| == |jobs'|
    && forall j :: 0 <= j < |jobs| ==>
         && jobs'[j] == jobs[j].(stage := jobs'[j].stage)
         && (jobs[j].stage == LookedUp <==> jobs'[j].stage == LookedUp)
  }

  predicate SameClients(jobs: seq<Job>, jobs': seq<Job>) {
    |jobs| == |jobs'| && forall j :: 0 <= j < |jobs| ==> jobs'[j].client == jobs[j].client
  }

  lemma BuffersFrame(jobs: seq<Job>, jobs': seq<Job>, files: seq<File>, tmpResults: map<Client, seq<FileId>>)
    requires FilesIndexed(files, |jobs|) && BuffersValid(jobs, files, tmpResults) && SameClients(jobs, jobs')
    ensures BuffersValid(jobs', files, tmpResults)
  {
    forall x, f | 0 <= f < |files|
      ensures BufferedRight(files[f], f, jobs'[files[f].job].client, tmpResults, x)
    {
      assert BufferedRight(files[f], f, jobs[files[f].job].client, tmpResults, x);
    }
  }

  lemma StageFrame(jobs: seq<Job>, jobs': seq<Job>, files: seq<File>, activeJobs: map<Client, seq<JobId>>)
    requires LedgerBalances(jobs, files) && ActiveJobsValid(jobs, activeJobs) && SameButStage(jobs, jobs')
    ensures LedgerBalances(jobs', files) && ActiveJobsValid(jobs', activeJobs)
  {
    forall j | 0 <= j < |jobs| ensures LedgerValid(jobs'[j], j, files) {
      assert LedgerValid(jobs[j], j, files);
    }
    forall x, j | 0 <= j < |jobs| ensures ListedRight(jobs'[j], j, activeJobs, x) {
      assert ListedRight(jobs[j], j, activeJobs, x);
    }
  }

  lemma SendWorkKeeps(s: Engine)
    requires Invariant(s) && Enabled(s, SendWork)
    ensures Invariant(AfterSendWork(s))
  {
    var s' := AfterSendWork(s);
    forall j | 0 <= j < |s.jobs|
      ensures StageValid(s'.jobs[j].stage, j, s'.clientJob, s'.work, s'.handler, s'.jobLookupDone)
    {
      assert StageValid(s.jobs[j].stage, j, s.clientJob, s.work, s.handler, s.jobLookupDone);
      OccurrencesAppend(s.work, s.clientJob.value, j);
    }
    StageFrame(s.jobs, s'.jobs, s.files, s.activeJobs);
    BuffersFrame(s.jobs, s'.jobs, s.files, s.tmpResults);
  }

  lemma HandlerFilesFrame(s: Engine, h: Handler)
    requires FilesValid(s.files, s.results, s.handler, s.schedulerUp)
    requires !(s.handler.Busy? && s.handler.file.Some?) && !(h.Busy? && h.file.Some?)
    ensures FilesValid(s.files, s.results, h, s.schedulerUp)
  {
    forall f | 0 <= f < |s.files| ensures FileValid(s.files[f], f, s.results, h, s.schedulerUp) {
      assert FileValid(s.files[f], f, s.results, s.handler, s.schedulerUp);
    }
  }

  lemma TakeKeeps(s: Engine)
    requires Invariant(s) && Enabled(s, Take)
    ensures Invariant(AfterTake(s))
  {
    var s' := AfterTake(s);
    OccursPositive(s.work, s.work[0]);
    assert StageValid(s.jobs[s.work[0]].stage, s.work[0], s.clientJob, s.work, s.handler, s.jobLookupDone);
    forall j | 0 <= j < |s.jobs|
      ensures StageValid(s'.jobs[j].stage, j, s'.clientJob, s'.work, s'.handler, s'.jobLookupDone)
    {
      assert StageValid(s.jobs[j].stage, j, s.clientJob, s.work, s.handler, s.jobLookupDone);
      OccurrencesTail(s.work, j);
    }
    StageFrame(s.jobs, s'.jobs, s.files, s.activeJobs);
    BuffersFrame(s.jobs, s'.jobs, s.files, s.tmpResults);
    HandlerFilesFrame(s, s'.handler);
  }

  lemma EndLookupKeeps(s: Engine)
    requires Invariant(s) && Enabled(s, EndLookup)
    ensures Invariant(s.(handler := Notifying(s.handler.job)))
  {
    var s' := s.(handler := Notifying(s.handler.job));
    forall j | 0 <= j < |s.jobs|
      ensures StageValid(s'.jobs[j].stage, j, s'.clientJob, s'.work, s'.handler, s'.jobLookupDone)
    {
      assert StageValid(s.jobs[j].stage, j, s.clientJob, s.work, s.handler, s.jobLookupDone);
    }
    HandlerFilesFrame(s, s'.handler);
  }

  lemma NotifyKeeps(s: Engine)
    requires Invariant(s) && Enabled(s, Notify)
    ensures Invariant(AfterNotify(s))
  {
    var s' := AfterNotify(s);
    assert StageValid(s.jobs[s.handler.job].stage, s.handler.job, s.clientJob, s.work, s.handler, s.jobLookupDone);
    forall j | 0 <= j < |s.jobs|
      ensures StageValid(s'.jobs[j].stage, j, s'.clientJob, s'.work, s'.handler, s'.jobLookupDone)
    {
      assert StageValid(s.jobs[j].stage, j, s.clientJob, s.work, s.handler, s.jobLookupDone);
      OccurrencesAppend(s.jobLookupDone, s.handler.job, j);
    }
    StageFrame(s.jobs, s'.jobs, s.files, s.activeJobs);
    BuffersFrame(s.jobs, s'.jobs, s.files, s.tmpResults);
    HandlerFilesFrame(s, s'.handler);
  }

  lemma NoJobHandlerFrame(s: Engine, h: Handler)
    requires StagesValid(s.jobs, s.clientJob, s.work, s.handler, s.jobLookupDone)
    requires !s.handler.Busy? && !s.handler.Notifying? && !h.Busy? && !h.Notifying?
    ensures StagesValid(s.jobs, s.clientJob, s.work, h, s.jobLookupDone)
  {
    forall j | 0 <= j < |s.jobs|
      ensures StageValid(s.jobs[j].stage, j, s.clientJob, s.work, h, s.jobLookupDone)
    {
      assert StageValid(s.jobs[j].stage, j, s.clientJob, s.work, s.handler, s.jobLookupDone);
    }
  }

  lemma SeeWorkClosedKeeps(s: Engine)
    requires Invariant(s) && Enabled(s, SeeWorkClosed)
    ensures Invariant(s.(handler := Stopping))
  {
    NoJobHandlerFrame(s, Stopping);
    HandlerFilesFrame(s, Stopping);
  }

  lemma CloseFilesKeeps(s: Engine)
    requires Invariant(s) && Enabled(s, CloseFiles)
    ensures Invariant(AfterCloseFiles(s))
  {
    NoJobHandlerFrame(s, Exited);
    HandlerFilesFrame(s, Exited);
  }

  lemma CloseWorkKeeps(s: Engine)
    requires Invariant(s) && Enabled(s, CloseWork)
    ensures Invariant(AfterCloseWork(s))
  {
  }

  lemma SchedulerExitKeeps(s: Engine)
    requires Invariant(s) && Enabled(s, SchedulerExit)
    ensures Invariant(s.(schedulerUp := false))
  {
    forall f | 0 <= f < |s.files| ensures FileValid(s.files[f], f, s.results, s.handler, false) {
      assert FileValid(s.files[f], f, s.results, s.handler, s.schedulerUp);
      assert !InPhase(s, f, Queued);
    }
  }

  // ----- Files travel towards their results -----

  /** The parts of the invariant that a change of phase of one outstanding file to
      another outstanding phase, neither of them Buffered, leaves alone. */
  lemma MoveFrame(s: Engine, f: FileId, phase: FilePhase)
    requires Invariant(s) && f < |s.files| && s.files[f].Outstanding()
    requires s.files[f].phase != Buffered && phase != Buffered && phase != Delivered && phase != Uncounted
    ensures var files' := SetPhase(s, f, phase).files;
      && LedgerBalances(s.jobs, files')
      && FilesIndexed(files', |s.jobs|)
      && BuffersValid(s.jobs, files', s.tmpResults)
      && Sum(files', AtWorkerShare())
         == Sum(s.files, AtWorkerShare()) - AtWorkerShare()(s.files[f]) + AtWorkerShare()(files'[f])
  {
    var files' := SetPhase(s, f, phase).files;
    FileChange(s, f, files'[f]);
    forall j | 0 <= j < |s.jobs| ensures LedgerValid(s.jobs[j], j, files') {
      assert LedgerValid(s.jobs[j], j, s.files);
    }
    forall x, g | 0 <= g < |s.files|
      ensures BufferedRight(files'[g], g, s.jobs[files'[g].job].client, s.tmpResults, x)
    {
      assert BufferedRight(s.files[g], g, s.jobs[s.files[g].job].client, s.tmpResults, x);
    }
  }

  lemma SubmissionStages(s: Engine, h: Handler)
    requires StagesValid(s.jobs, s.clientJob, s.work, s.handler, s.jobLookupDone)
    requires s.handler.Busy? && h.Busy? && h.job == s.handler.job
    ensures StagesValid(s.jobs, s.clientJob, s.work, h, s.jobLookupDone)
  {
    forall j | 0 <= j < |s.jobs|
      ensures StageValid(s.jobs[j].stage, j, s.clientJob, s.work, h, s.jobLookupDone)
    {
      assert StageValid(s.jobs[j].stage, j, s.clientJob, s.work, s.handler, s.jobLookupDone);
    }
  }

  lemma CountJobs(s: Engine)
    requires Invariant(s) && Enabled(s, Count)
    ensures var s' := AfterCount(s);
      && StagesValid(s'.jobs, s'.clientJob, s'.work, s'.handler, s'.jobLookupDone)
      && LedgerBalances(s'.jobs, s'.files)
      && ActiveJobsValid(s'.jobs, s'.activeJobs)
  {
    var s' := AfterCount(s);
    var file := File(s.handler.job, Submitting);
    forall j | 0 <= j < |s.jobs|
      ensures StageValid(s'.jobs[j].stage, j, s'.clientJob, s'.work, s'.handler, s'.jobLookupDone)
      ensures LedgerValid(s'.jobs[j], j, s'.files)
    {
      assert StageValid(s.jobs[j].stage, j, s.clientJob, s.work, s.handler, s.jobLookupDone);
      assert LedgerValid(s.jobs[j], j, s.files);
      SumAppend(s.files, file, OutstandingShare(j));
    }
    forall x, j | 0 <= j < |s.jobs| ensures ListedRight(s'.jobs[j], j, s.activeJobs, x) {
      assert ListedRight(s.jobs[j], j, s.activeJobs, x);
      assert StageValid(s.jobs[j].stage, j, s.clientJob, s.work, s.handler, s.jobLookupDone);
    }
  }

  lemma CountFiles(s: Engine)
    requires Invariant(s) && Enabled(s, Count)
    ensures var s' := AfterCount(s);
      && FilesIndexed(s'.files, |s'.jobs|)
      && FilesValid(s'.files, s'.results, s'.handler, s'.schedulerUp)
      && BuffersValid(s'.jobs, s'.files, s'.tmpResults)
  {
    var s' := AfterCount(s);
    forall f | 0 <= f < |s'.files| ensures FileValid(s'.files[f], f, s'.results, s'.handler, s'.schedulerUp) {
      if f < |s.files| {
        assert FileValid(s.files[f], f, s.results, s.handler, s.schedulerUp);
      } else {
        OccursPositive(s.results, Some(f));
      }
    }
    forall x, f | 0 <= f < |s'.files|
      ensures BufferedRight(s'.files[f], f, s'.jobs[s'.files[f].job].client, s'.tmpResults, x)
    {
      if f < |s.files| {
        assert BufferedRight(s.files[f], f, s.jobs[s.files[f].job].client, s.tmpResults, x);
      } else {
        OccursPositive(Entry(s.tmpResults, x), f);
      }
    }
  }

  lemma CountKeeps(s: Engine)
    requires Invariant(s) && Enabled(s, Count)
    ensures Invariant(AfterCount(s))
  {
    CountJobs(s);
    CountFiles(s);
    SumAppend(s.files, File(s.handler.job, Submitting), AtWorkerShare());
  }

  lemma SubmitKeeps(s: Engine)
    requires Invariant(s) && Enabled(s, Submit)
    ensures Invariant(AfterSubmit(s))
  {
    var s' := AfterSubmit(s);
    var f0 := s.handler.file.value;
    MoveFrame(s, f0, s'.files[f0].phase);
    SubmissionStages(s, s'.handler);
    forall f | 0 <= f < |s.files| ensures FileValid(s'.files[f], f, s'.results, s'.handler, s'.schedulerUp) {
      assert FileValid(s.files[f], f, s.results, s.handler, s.schedulerUp);
    }
  }

  lemma ShedKeeps(s: Engine)
    requires Invariant(s) && Enabled(s, Shed)
    ensures Invariant(AfterShed(s))
  {
    var s' := AfterShed(s);
    var f0 := s.handler.file.value;
    MoveFrame(s, f0, InResults);
    SubmissionStages(s, s'.handler);
    forall f | 0 <= f < |s.files| ensures FileValid(s'.files[f], f, s'.results, s'.handler, s'.schedulerUp) {
      assert FileValid(s.files[f], f, s.results, s.handler, s.schedulerUp);
      OccurrencesAppend(s.results, Some(f0), Some(f));
    }
    OccurrencesAppend(s.results, Some(f0), None);
  }

  lemma FailSubmitKeepsJobs(s: Engine)
    requires Invariant(s) && Enabled(s, FailSubmit)
    ensures var s' := AfterFailedSubmit(s);
      && StagesValid(s'.jobs, s'.clientJob, s'.work, s'.handler, s'.jobLookupDone)
      && LedgerBalances(s'.jobs, s'.files)
  {
    var s' := AfterFailedSubmit(s);
    var f0 := s.handler.file.value;
    FileChange(s, f0, s'.files[f0]);
    forall j | 0 <= j < |s.jobs|
      ensures StageValid(s'.jobs[j].stage, j, s'.clientJob, s'.work, s'.handler, s'.jobLookupDone)
      ensures LedgerValid(s'.jobs[j], j, s'.files)
    {
      assert StageValid(s.jobs[j].stage, j, s.clientJob, s.work, s.handler, s.jobLookupDone);
      assert LedgerValid(s.jobs[j], j, s.files);
    }
  }

  /** The handler's job is not looked up, so it stays listed whatever its count. */
  lemma FailSubmitKeepsLists(s: Engine)
    requires Invariant(s) && Enabled(s, FailSubmit)
    ensures ActiveJobsValid(AfterFailedSubmit(s).jobs, s.activeJobs)
  {
    var s' := AfterFailedSubmit(s);
    forall x, j | 0 <= j < |s.jobs| ensures ListedRight(s'.jobs[j], j, s.activeJobs, x) {
      assert ListedRight(s.jobs[j], j, s.activeJobs, x);
      assert StageValid(s.jobs[j].stage, j, s.clientJob, s.work, s.handler, s.jobLookupDone);
    }
  }

  lemma FailSubmitKeepsFiles(s: Engine)
    requires Invariant(s) && Enabled(s, FailSubmit)
    ensures var s' := AfterFailedSubmit(s);
      && FilesIndexed(s'.files, |s'.jobs|)
      && FilesValid(s'.files, s'.results, s'.handler, s'.schedulerUp)
      && BuffersValid(s'.jobs, s'.files, s'.tmpResults)
      && Sum(s'.files, AtWorkerShare()) == Sum(s.files, AtWorkerShare())
  {
    var s' := AfterFailedSubmit(s);
    var f0 := s.handler.file.value;
    FileChange(s, f0, s'.files[f0]);
    forall f | 0 <= f < |s.files| ensures FileValid(s'.files[f], f, s'.results, s'.handler, s'.schedulerUp) {
      assert FileValid(s.files[f], f, s.results, s.handler, s.schedulerUp);
    }
    forall x, f | 0 <= f < |s.files|
      ensures BufferedRight(s'.files[f], f, s'.jobs[s'.files[f].job].client, s'.tmpResults, x)
    {
      assert BufferedRight(s.files[f], f, s.jobs[s.files[f].job].client, s.tmpResults, x);
    }
  }

  lemma FailSubmitKeeps(s: Engine)
    requires Invariant(s) && Enabled(s, FailSubmit)
    ensures Invariant(AfterFailedSubmit(s))
  {
    FailSubmitKeepsJobs(s);
    FailSubmitKeepsLists(s);
    FailSubmitKeepsFiles(s);
  }

  lemma DispatchKeeps(s: Engine, f0: FileId)
    requires Invariant(s) && Enabled(s, Dispatch(f0))
    ensures Invariant(AfterDispatch(s, f0))
  {
    var s' := AfterDispatch(s, f0);
    MoveFrame(s, f0, AtWorker);
    forall f | 0 <= f < |s.files| ensures FileValid(s'.files[f], f, s'.results, s'.handler, s'.schedulerUp) {
      assert FileValid(s.files[f], f, s.results, s.handler, s.schedulerUp);
    }
  }

  /** A file at a worker, or queued in a running scheduler, reports its result. */
  lemma ReportKeeps(s: Engine, f0: FileId)
    requires Invariant(s) && (InPhase(s, f0, AtWorker) || InPhase(s, f0, Queued))
    ensures Invariant(AfterReport(s, f0))
  {
    var s' := AfterReport(s, f0);
    assert FileValid(s.files[f0], f0, s.results, s.handler, s.schedulerUp);
    MoveFrame(s, f0, InResults);
    SumBoundsTerm(s.files, AtWorkerShare());
    assert AtWorkerShare()(s.files[f0]) <= Sum(s.files, AtWorkerShare());
    forall f | 0 <= f < |s.files| ensures FileValid(s'.files[f], f, s'.results, s'.handler, s'.schedulerUp) {
      assert FileValid(s.files[f], f, s.results, s.handler, s.schedulerUp);
      OccurrencesAppend(s.results, Some(f0), Some(f));
    }
    OccurrencesAppend(s.results, Some(f0), None);
  }

  lemma WorkerExitKeeps(s: Engine)
    requires Invariant(s) && Enabled(s, WorkerExit)
    ensures Invariant(AfterWorkerExit(s))
  {
    var s' := AfterWorkerExit(s);
    forall f | 0 <= f < |s.files| ensures FileValid(s.files[f], f, s'.results, s.handler, s.schedulerUp) {
      assert FileValid(s.files[f], f, s.results, s.handler, s.schedulerUp);
      OccurrencesAppend(s.results, None, Some(f));
    }
    OccurrencesAppend(s.results, None, None);
  }

  // ----- Results reach their client -----

  lemma ReceiveExitKeeps(s: Engine)
    requires Invariant(s) && Enabled(s, ReceiveResult) && s.results[0].None?
    ensures Invariant(AfterReceiveResult(s))
  {
    var s' := AfterReceiveResult(s);
    forall f | 0 <= f < |s.files| ensures FileValid(s.files[f], f, s'.results, s.handler, s.schedulerUp) {
      assert FileValid(s.files[f], f, s.results, s.handler, s.schedulerUp);
      OccurrencesTail(s.results, Some(f));
    }
    OccurrencesTail(s.results, None);
    OccursPositive(s'.results, None);
  }

  lemma ReceivedKeepsBuffers(jobs: seq<Job>, files: seq<File>, tmpResults: map<Client, seq<FileId>>, f0: FileId)
    requires FilesIndexed(files, |jobs|) && BuffersValid(jobs, files, tmpResults) && f0 < |files|
    requires files[f0].phase == InResults
    ensures var files' := files[f0 := files[f0].(phase := Buffered)];
      var c := jobs[files[f0].job].client;
      FilesIndexed(files', |jobs|) && BuffersValid(jobs, files', tmpResults[c := Entry(tmpResults, c) + [f0]])
  {
    var files' := files[f0 := files[f0].(phase := Buffered)];
    var c := jobs[files[f0].job].client;
    var tmp' := tmpResults[c := Entry(tmpResults, c) + [f0]];
    forall x, f | 0 <= f < |files| ensures BufferedRight(files'[f], f, jobs[files'[f].job].client, tmp', x) {
      assert BufferedRight(files[f], f, jobs[files[f].job].client, tmpResults, x);
      OccurrencesAppend(Entry(tmpResults, x), f0, f);
    }
  }

  lemma ReceiveFileBuffers(s: Engine)
    requires Invariant(s) && Enabled(s, ReceiveResult) && s.results[0].Some?
    ensures var s' := AfterReceiveResult(s);
      FilesIndexed(s'.files, |s'.jobs|) && BuffersValid(s'.jobs, s'.files, s'.tmpResults)
  {
    ReceivedWaited(s);
    ReceivedKeepsBuffers(s.jobs, s.files, s.tmpResults, s.results[0].value);
  }

  /** The result received is of a file that waited for it. */
  lemma ReceivedWaited(s: Engine)
    requires Indexed(s) && FilesValid(s.files, s.results, s.handler, s.schedulerUp) && s.results != []
    requires s.results[0].Some?
    ensures s.results[0].value < |s.files| && s.files[s.results[0].value].phase == InResults
  {
    var f0 := s.results[0].value;
    OccursPositive(s.results, Some(f0));
    assert FileValid(s.files[f0], f0, s.results, s.handler, s.schedulerUp);
  }

  /** Between outstanding phases a move changes no job's ledger. */
  lemma OutstandingMoveKeepsLedger(jobs: seq<Job>, s: Engine, f: FileId, phase: FilePhase)
    requires LedgerBalances(jobs, s.files) && f < |s.files| && s.files[f].Outstanding()
    requires phase != Delivered && phase != Uncounted
    ensures LedgerBalances(jobs, s.files[f := s.files[f].(phase := phase)])
  {
    var files' := s.files[f := s.files[f].(phase := phase)];
    FileChange(s, f, files'[f]);
    forall j | 0 <= j < |jobs| ensures LedgerValid(jobs[j], j, files') {
      assert LedgerValid(jobs[j], j, s.files);
    }
  }

  lemma ReceivedKeepsFiles(s: Engine)
    requires Indexed(s) && FilesValid(s.files, s.results, s.handler, s.schedulerUp) && s.results != []
    requires s.results[0].Some?
    ensures var s' := AfterReceiveResult(s);
      FilesValid(s'.files, s'.results, s'.handler, s'.schedulerUp)
  {
    var s' := AfterReceiveResult(s);
    ReceivedWaited(s);
    forall f | 0 <= f < |s.files| ensures FileValid(s'.files[f], f, s'.results, s'.handler, s'.schedulerUp) {
      assert FileValid(s.files[f], f, s.results, s.handler, s.schedulerUp);
      OccurrencesTail(s.results, Some(f));
    }
  }

  lemma ReceiveFileSums(s: Engine)
    requires Invariant(s) && Enabled(s, ReceiveResult) && s.results[0].Some?
    ensures var s' := AfterReceiveResult(s);
      && LedgerBalances(s'.jobs, s'.files)
      && FilesValid(s'.files, s'.results, s'.handler, s'.schedulerUp)
      && Sum(s'.files, AtWorkerShare()) == Sum(s.files, AtWorkerShare())
  {
    var f0 := s.results[0].value;
    ReceivedWaited(s);
    ReceivedKeepsFiles(s);
    OutstandingMoveKeepsLedger(s.jobs, s, f0, Buffered);
    FileChange(s, f0, s.files[f0].(phase := Buffered));
  }

  lemma ReceiveFileKeepsWorkers(s: Engine)
    requires Indexed(s) && WorkersValid(s) && ChannelsValid(s) && Enabled(s, ReceiveResult) && s.results[0].Some?
    requires s.files[s.results[0].value].phase == InResults
    ensures var s' := AfterReceiveResult(s); Indexed(s') && WorkersValid(s') && ChannelsValid(s')
  {
    var f0 := s.results[0].value;
    OccurrencesTail(s.results, None);
    FileChange(s, f0, s.files[f0].(phase := Buffered));
  }

  lemma ReceiveFileKeeps(s: Engine)
    requires Invariant(s) && Enabled(s, ReceiveResult) && s.results[0].Some?
    ensures Invariant(AfterReceiveResult(s))
  {
    ReceivedWaited(s);
    ReceiveFileBuffers(s);
    ReceiveFileSums(s);
    ReceiveFileKeepsWorkers(s);
  }

  // ----- Deliveries and finished lookups retire jobs -----

  lemma {:induction false} WithoutOccurrences(jobs: seq<JobId>, j: JobId, x: JobId)
    ensures Occurrences(Without(jobs, j), x) == (if x == j then 0 else Occurrences(jobs, x))
  {
    if jobs != [] {
      WithoutOccurrences(jobs[..|jobs| - 1], j, x);
      assert jobs == jobs[..|jobs| - 1] + [jobs[|jobs| - 1]];
    }
  }

  /** Job j is listed as if it were not finished; every other job is listed right. */
  ghost predicate StillListed(jobs: seq<Job>, activeJobs: map<Client, seq<JobId>>, j: JobId) {
    && j < |jobs|
    && (forall c, i :: 0 <= i < |jobs| && i != j ==> ListedRight(jobs[i], i, activeJobs, c))
    && (forall c :: Occurrences(Entry(activeJobs, c), j) == (if c == jobs[j].client then 1 else 0))
    && (forall c :: c in activeJobs ==> activeJobs[c] != [] && forall i :: i in activeJobs[c] ==> i < |jobs|)
  }

  lemma SingleEntry<T>(s: seq<T>, x: T)
    requires |s| == 1 && Occurrences(s, x) == 1
    ensures s == [x]
  {
    OccursPositive(s, x);
  }

  lemma LongerEntry<T>(s: seq<T>, x: T)
    requires |s| >= 2 && Occurrences(s, x) == 1
    ensures exists y :: y in s && y != x
  {
    assert s == [s[0], s[1]] + s[2..];
    if s[0] != x {
      assert s[0] in s;
    } else {
      assert s[1] in s;
    }
  }

  lemma RetireLast(jobs: seq<Job>, activeJobs: map<Client, seq<JobId>>, j: JobId)
    requires StillListed(jobs, activeJobs, j) && jobs[j].Finished() && |Entry(activeJobs, jobs[j].client)| == 1
    ensures ActiveJobsValid(jobs, activeJobs - {jobs[j].client})
  {
    var c := jobs[j].client;
    SingleEntry(Entry(activeJobs, c), j);
    forall x, i | 0 <= i < |jobs| ensures ListedRight(jobs[i], i, activeJobs - {c}, x) {
      if i != j {
        assert ListedRight(jobs[i], i, activeJobs, x);
      }
    }
  }

  lemma RetireOne(jobs: seq<Job>, activeJobs: map<Client, seq<JobId>>, j: JobId)
    requires StillListed(jobs, activeJobs, j) && jobs[j].Finished() && |Entry(activeJobs, jobs[j].client)| >= 2
    ensures var c := jobs[j].client; ActiveJobsValid(jobs, activeJobs[c := Without(Entry(activeJobs, c), j)])
  {
    var c := jobs[j].client;
    var mine := Entry(activeJobs, c);
    var rest := Without(mine, j);
    LongerEntry(mine, j);
    var y :| y in mine && y != j;
    OccursPositive(mine, y);
    WithoutOccurrences(mine, j, y);
    OccursPositive(rest, y);
    forall i | i in rest ensures i < |jobs| {
      OccursPositive(rest, i);
      WithoutOccurrences(mine, j, i);
      OccursPositive(mine, i);
    }
    var after := activeJobs[c := rest];
    forall x, i | 0 <= i < |jobs| ensures ListedRight(jobs[i], i, after, x) {
      WithoutOccurrences(mine, j, i);
      if i != j {
        assert ListedRight(jobs[i], i, activeJobs, x);
      }
    }
  }

  lemma FinishesFrame(jobs: seq<Job>, activeJobs: map<Client, seq<JobId>>, j: JobId, n: nat)
    requires StillListed(jobs, activeJobs, j)
    ensures StillListed(jobs[j := jobs[j].(finishes := n)], activeJobs, j)
  {
    var jobs' := jobs[j := jobs[j].(finishes := n)];
    forall x, i | 0 <= i < |jobs| && i != j ensures ListedRight(jobs'[i], i, activeJobs, x) {
      assert ListedRight(jobs[i], i, activeJobs, x);
    }
  }

  lemma CloseLast(resultsClosed: set<Client>, workMap: map<Client, WorkChan>, activeJobs: map<Client, seq<JobId>>,
                  c: Client)
    requires ResultsClosedValid(resultsClosed, workMap, activeJobs) && c in activeJobs && c in workMap
    ensures c !in resultsClosed
    ensures ResultsClosedValid(if Gone(workMap, c) then resultsClosed + {c} else resultsClosed,
                               workMap, activeJobs - {c})
  {
    assert ClosedRight(resultsClosed, workMap, activeJobs, c);
    var closed' := if Gone(workMap, c) then resultsClosed + {c} else resultsClosed;
    forall x ensures ClosedRight(closed', workMap, activeJobs - {c}, x) {
      assert ClosedRight(resultsClosed, workMap, activeJobs, x);
    }
  }

  lemma CloseNone(resultsClosed: set<Client>, workMap: map<Client, WorkChan>, activeJobs: map<Client, seq<JobId>>,
                  c: Client, left: seq<JobId>)
    requires ResultsClosedValid(resultsClosed, workMap, activeJobs) && c in activeJobs
    ensures ResultsClosedValid(resultsClosed, workMap, activeJobs[c := left])
  {
    var after := activeJobs[c := left];
    forall x ensures ClosedRight(resultsClosed, workMap, after, x) {
      assert ClosedRight(resultsClosed, workMap, activeJobs, x);
    }
  }

  /** finishJob retires the job, and closes the results channel exactly when the client
      is gone and this was its last job, then for the first time. */
  lemma FinishJobKeeps(jobs: seq<Job>, activeJobs: map<Client, seq<JobId>>, workMap: map<Client, WorkChan>,
                       resultsClosed: set<Client>, j: JobId)
    requires StillListed(jobs, activeJobs, j) && jobs[j].Finished() && jobs[j].client in workMap
    requires ResultsClosedValid(resultsClosed, workMap, activeJobs)
    ensures var r := FinishJob(jobs, activeJobs, workMap, resultsClosed, j, jobs[j].client);
      && ActiveJobsValid(r.jobs, r.activeJobs)
      && ResultsClosedValid(r.resultsClosed, workMap, r.activeJobs)
      && !r.panics
  {
    var c := jobs[j].client;
    var mine := Entry(activeJobs, c);
    OccursPositive(mine, j);
    FinishesFrame(jobs, activeJobs, j, jobs[j].finishes + 1);
    if |mine| <= 1 {
      RetireLast(WithFinish(jobs, j), activeJobs, j);
      CloseLast(resultsClosed, workMap, activeJobs, c);
    } else {
      RetireOne(WithFinish(jobs, j), activeJobs, j);
      CloseNone(resultsClosed, workMap, activeJobs, c, Without(mine, j));
    }
  }

  /** The books of job j before the multiplexer tests whether to retire it. */
  ghost predicate ReadyToTest(s: Engine, j: JobId) {
    && StillListed(s.jobs, s.activeJobs, j)
    && (forall i :: 0 <= i < |s.jobs| && i != j ==> LedgerValid(s.jobs[i], i, s.files))
    && s.jobs[j].active == Sum(s.files, OutstandingShare(j))
    && s.jobs[j].finishes == 0
    && ClientsKnown(s.jobs, s.workMap)
    && ResultsClosedValid(s.resultsClosed, s.workMap, s.activeJobs)
  }

  lemma TestJobKeeps(s: Engine, j: JobId)
    requires ReadyToTest(s, j)
    ensures var r := TestJob(s.jobs, s.activeJobs, s.workMap, s.resultsClosed, j, s.jobs[j].client);
      && LedgerBalances(r.jobs, s.files)
      && ActiveJobsValid(r.jobs, r.activeJobs)
      && ResultsClosedValid(r.resultsClosed, s.workMap, r.activeJobs)
      && !r.panics
  {
    if s.jobs[j].Finished() {
      FinishJobKeeps(s.jobs, s.activeJobs, s.workMap, s.resultsClosed, j);
    } else {
      forall x, i | 0 <= i < |s.jobs| ensures ListedRight(s.jobs[i], i, s.activeJobs, x) {
      }
    }
  }

  /** The test changes the finish counts of the jobs only. */
  lemma TestJobFrame(s: Engine, j: JobId)
    requires j < |s.jobs|
    ensures var r := TestJob(s.jobs, s.activeJobs, s.workMap, s.resultsClosed, j, s.jobs[j].client);
      && |r.jobs| == |s.jobs|
      && forall i :: 0 <= i < |s.jobs| ==> r.jobs[i] == s.jobs[i].(finishes := r.jobs[i].finishes)
  {
  }

  lemma LookupDoneReady(s: Engine)
    requires Invariant(s) && Enabled(s, LookupDone)
    ensures var j := s.jobLookupDone[0];
      && s.jobs[j].stage == InDone
      && ReadyToTest(SetStage(s, j, LookedUp).(jobLookupDone := s.jobLookupDone[1..]), j)
  {
    var j := s.jobLookupDone[0];
    var s1 := SetStage(s, j, LookedUp).(jobLookupDone := s.jobLookupDone[1..]);
    OccursPositive(s.jobLookupDone, j);
    assert StageValid(s.jobs[j].stage, j, s.clientJob, s.work, s.handler, s.jobLookupDone);
    assert LedgerValid(s.jobs[j], j, s.files);
    forall x ensures Occurrences(Entry(s.activeJobs, x), j) == (if x == s.jobs[j].client then 1 else 0) {
      assert ListedRight(s.jobs[j], j, s.activeJobs, x);
    }
    forall x, i | 0 <= i < |s.jobs| && i != j ensures ListedRight(s1.jobs[i], i, s.activeJobs, x) {
      assert ListedRight(s.jobs[i], i, s.activeJobs, x);
    }
    forall i | 0 <= i < |s.jobs| && i != j ensures LedgerValid(s1.jobs[i], i, s.files) {
      assert LedgerValid(s.jobs[i], i, s.files);
    }
  }

  lemma LookupDoneStages(s: Engine)
    requires Indexed(s) && Enabled(s, LookupDone)
    requires StagesValid(s.jobs, s.clientJob, s.work, s.handler, s.jobLookupDone)
    ensures var s1 := SetStage(s, s.jobLookupDone[0], LookedUp);
      StagesValid(s1.jobs, s.clientJob, s.work, s.handler, s.jobLookupDone[1..])
  {
    var j0 := s.jobLookupDone[0];
    var s1 := SetStage(s, j0, LookedUp);
    OccursPositive(s.jobLookupDone, j0);
    assert StageValid(s.jobs[j0].stage, j0, s.clientJob, s.work, s.handler, s.jobLookupDone);
    forall j | 0 <= j < |s.jobs|
      ensures StageValid(s1.jobs[j].stage, j, s.clientJob, s.work, s.handler, s.jobLookupDone[1..])
    {
      assert StageValid(s.jobs[j].stage, j, s.clientJob, s.work, s.handler, s.jobLookupDone);
      OccurrencesTail(s.jobLookupDone, j);
    }
  }

  lemma SameStages(jobs: seq<Job>, jobs': seq<Job>, clientJob: Option<JobId>, work: seq<JobId>, h: Handler,
                   done: seq<JobId>)
    requires StagesValid(jobs, clientJob, work, h, done) && |jobs| == |jobs'|
    requires forall i :: 0 <= i < |jobs| ==> jobs'[i].stage == jobs[i].stage
    ensures StagesValid(jobs', clientJob, work, h, done)
  {
    forall j | 0 <= j < |jobs| ensures StageValid(jobs'[j].stage, j, clientJob, work, h, done) {
      assert StageValid(jobs[j].stage, j, clientJob, work, h, done);
    }
  }

  lemma LookupDoneKeepsJobs(s: Engine)
    requires Invariant(s) && Enabled(s, LookupDone)
    ensures var s' := AfterLookupDone(s);
      && SameClients(s.jobs, s'.jobs) && |s.jobs| == |s'.jobs|
      && StagesValid(s'.jobs, s.clientJob, s.work, s.handler, s'.jobLookupDone)
      && LedgerBalances(s'.jobs, s.files)
      && ActiveJobsValid(s'.jobs, s'.activeJobs)
      && ResultsClosedValid(s'.resultsClosed, s.workMap, s'.activeJobs)
      && !s'.panicked
  {
    var j0 := s.jobLookupDone[0];
    var s1 := SetStage(s, j0, LookedUp).(jobLookupDone := s.jobLookupDone[1..]);
    LookupDoneReady(s);
    LookupDoneStages(s);
    TestJobKeeps(s1, j0);
    TestJobFrame(s1, j0);
    SameStages(s1.jobs, AfterLookupDone(s).jobs, s.clientJob, s.work, s.handler, s1.jobLookupDone);
  }

  lemma LookupDoneKeeps(s: Engine)
    requires Invariant(s) && Enabled(s, LookupDone)
    ensures Invariant(AfterLookupDone(s))
  {
    var s' := AfterLookupDone(s);
    LookupDoneKeepsJobs(s);
    BuffersFrame(s.jobs, s'.jobs, s.files, s.tmpResults);
    assert s' == s.(jobs := s'.jobs, activeJobs := s'.activeJobs, resultsClosed := s'.resultsClosed,
                    jobLookupDone := s'.jobLookupDone, panicked := s'.panicked);
  }

  lemma DeliverReady(s: Engine, c: Client, f: FileId)
    requires Invariant(s) && Enabled(s, Deliver(c)) && f == Entry(s.tmpResults, c)[0] && f < |s.files|
    ensures var j := s.files[f].job;
      && s.files[f].phase == Buffered && s.jobs[j].client == c && c !in s.resultsClosed
      && ReadyToTest(AddActive(SetPhase(s, f, Delivered), j, -1), j)
  {
    var j := s.files[f].job;
    var s1 := AddActive(SetPhase(s, f, Delivered), j, -1);
    OccursPositive(Entry(s.tmpResults, c), f);
    assert BufferedRight(s.files[f], f, s.jobs[j].client, s.tmpResults, c);
    OutstandingFileKeepsJob(s.jobs, s.files, s.activeJobs, f);
    assert ClosedRight(s.resultsClosed, s.workMap, s.activeJobs, c);
    FileChange(s, f, s1.files[f]);
    assert LedgerValid(s.jobs[j], j, s.files);
    forall x ensures Occurrences(Entry(s.activeJobs, x), j) == (if x == s.jobs[j].client then 1 else 0) {
      assert ListedRight(s.jobs[j], j, s.activeJobs, x);
    }
    forall x, i | 0 <= i < |s.jobs| && i != j ensures ListedRight(s1.jobs[i], i, s.activeJobs, x) {
      assert ListedRight(s.jobs[i], i, s.activeJobs, x);
    }
    forall i | 0 <= i < |s.jobs| && i != j ensures LedgerValid(s1.jobs[i], i, s1.files) {
      assert LedgerValid(s.jobs[i], i, s.files);
    }
  }

  lemma PoppedBuffers(jobs: seq<Job>, files: seq<File>, tmpResults: map<Client, seq<FileId>>, c: Client, f0: FileId)
    requires FilesIndexed(files, |jobs|) && BuffersIndexed(tmpResults, |files|) && BuffersValid(jobs, files, tmpResults)
    requires Entry(tmpResults, c) != [] && f0 == Entry(tmpResults, c)[0] && f0 < |files|
    requires files[f0].phase == Buffered && jobs[files[f0].job].client == c
    ensures var files' := files[f0 := files[f0].(phase := Delivered)];
      && FilesIndexed(files', |jobs|)
      && BuffersIndexed(Popped(tmpResults, c), |files'|)
      && BuffersValid(jobs, files', Popped(tmpResults, c))
  {
    var files' := files[f0 := files[f0].(phase := Delivered)];
    var mine := Entry(tmpResults, c);
    var tmp' := Popped(tmpResults, c);
    assert Entry(tmp', c) == mine[1..];
    forall f | f in mine[1..] ensures f in mine {}
    forall x, f | 0 <= f < |files|
      ensures BufferedRight(files'[f], f, jobs[files'[f].job].client, tmp', x)
    {
      assert BufferedRight(files[f], f, jobs[files[f].job].client, tmpResults, x);
      OccurrencesTail(mine, f);
    }
  }

  lemma DeliverFiles(s: Engine, f0: FileId)
    requires FilesValid(s.files, s.results, s.handler, s.schedulerUp) && f0 < |s.files| && s.files[f0].phase == Buffered
    ensures var files' := SetPhase(s, f0, Delivered).files;
      && FilesValid(files', s.results, s.handler, s.schedulerUp)
      && Sum(files', AtWorkerShare()) == Sum(s.files, AtWorkerShare())
  {
    var files' := SetPhase(s, f0, Delivered).files;
    FileChange(s, f0, files'[f0]);
    forall f | 0 <= f < |s.files| ensures FileValid(files'[f], f, s.results, s.handler, s.schedulerUp) {
      assert FileValid(s.files[f], f, s.results, s.handler, s.schedulerUp);
    }
  }

  lemma DeliverKeepsJobs(s: Engine, c: Client, f: FileId)
    requires Invariant(s) && Enabled(s, Deliver(c)) && f == Entry(s.tmpResults, c)[0] && f < |s.files|
    ensures var s' := AfterDeliver(s, c);
      && SameClients(s.jobs, s'.jobs) && |s.jobs| == |s'.jobs|
      && StagesValid(s'.jobs, s.clientJob, s.work, s.handler, s.jobLookupDone)
      && LedgerBalances(s'.jobs, s'.files)
      && ActiveJobsValid(s'.jobs, s'.activeJobs)
      && ResultsClosedValid(s'.resultsClosed, s.workMap, s'.activeJobs)
      && !s'.panicked
  {
    var j0 := s.files[f].job;
    var s1 := AddActive(SetPhase(s, f, Delivered), j0, -1);
    DeliverReady(s, c, f);
    TestJobKeeps(s1, j0);
    TestJobFrame(s1, j0);
    SameStages(s.jobs, AfterDeliver(s, c).jobs, s.clientJob, s.work, s.handler, s.jobLookupDone);
  }

  lemma DeliverKeepsFiles(s: Engine, c: Client, f: FileId)
    requires Invariant(s) && Enabled(s, Deliver(c)) && f == Entry(s.tmpResults, c)[0] && f < |s.files|
    requires SameClients(s.jobs, AfterDeliver(s, c).jobs) && |s.jobs| == |AfterDeliver(s, c).jobs|
    ensures var s' := AfterDeliver(s, c);
      && FilesIndexed(s'.files, |s'.jobs|) && BuffersIndexed(s'.tmpResults, |s'.files|)
      && FilesValid(s'.files, s.results, s.handler, s.schedulerUp)
      && BuffersValid(s'.jobs, s'.files, s'.tmpResults)
      && Sum(s'.files, AtWorkerShare()) == Sum(s.files, AtWorkerShare())
  {
    var s' := AfterDeliver(s, c);
    DeliverReady(s, c, f);
    DeliverFiles(s, f);
    PoppedBuffers(s.jobs, s.files, s.tmpResults, c, f);
    BuffersFrame(s.jobs, s'.jobs, s'.files, s'.tmpResults);
  }

  lemma DeliverKeeps(s: Engine, c: Client, f: FileId)
    requires Invariant(s) && Enabled(s, Deliver(c)) && f == Entry(s.tmpResults, c)[0] && f < |s.files|
    ensures Invariant(AfterDeliver(s, c))
  {
    DeliverKeepsJobs(s, c, f);
    DeliverKeepsFiles(s, c, f);
  }

  // ----- Runs -----

  predicate IsMuxStep(step: Step) {
    step.NewClient? || step.CloseClient? || step.ReceiveJob? || step.SeeClosed? || step.CloseWork? || step.SendWork?
    || step.ReceiveResult? || step.Deliver? || step.LookupDone? || step.CloseEngine?
  }

  lemma MuxStepKeeps(s: Engine, step: Step)
    requires Invariant(s) && Enabled(s, step) && IsMuxStep(step)
    ensures Invariant(Apply(s, step))
  {
    match step
    case NewClient(c) => NewClientKeeps(s, c);
    case CloseClient(c) => CloseClientKeeps(s, c);
    case ReceiveJob(c) => ReceiveJobKeeps(s, c);
    case SeeClosed(c) => SeeClosedKeeps(s, c);
    case CloseWork => CloseWorkKeeps(s);
    case SendWork => SendWorkKeeps(s);
    case ReceiveResult =>
      if s.results[0].None? { ReceiveExitKeeps(s); } else { ReceiveFileKeeps(s); }
    case Deliver(c) =>
      assert s.tmpResults[c][0] in s.tmpResults[c];
      DeliverKeeps(s, c, s.tmpResults[c][0]);
    case LookupDone => LookupDoneKeeps(s);
    case CloseEngine => CloseEngineKeeps(s);
  }

  lemma StepKeeps(s: Engine, step: Step)
    requires Invariant(s) && Enabled(s, step)
    ensures Invariant(Apply(s, step))
  {
    if IsMuxStep(step) {
      MuxStepKeeps(s, step);
      return;
    }
    match step
    case Take => TakeKeeps(s);
    case Count => CountKeeps(s);
    case Submit => SubmitKeeps(s);
    case Shed => ShedKeeps(s);
    case FailSubmit => FailSubmitKeeps(s);
    case EndLookup => EndLookupKeeps(s);
    case Notify => NotifyKeeps(s);
    case SeeWorkClosed => SeeWorkClosedKeeps(s);
    case CloseFiles => CloseFilesKeeps(s);
    case Dispatch(f) => DispatchKeeps(s, f);
    case Drop(f) => ReportKeeps(s, f);
    case SchedulerExit => SchedulerExitKeeps(s);
    case Report(f) => ReportKeeps(s, f);
    case WorkerExit => WorkerExitKeeps(s);
  }

  lemma {:induction false} RunKeepsInvariant(hasScheduler: bool, workers: nat, steps: seq<Step>)
    requires workers > 0 && Run(hasScheduler, workers, steps).Some?
    ensures Invariant(Run(hasScheduler, workers, steps).value)
  {
    if steps == [] {
      assert forall c :: ClosedRight({}, map[], map[], c);
    } else {
      RunKeepsInvariant(hasScheduler, workers, steps[..|steps| - 1]);
      StepKeeps(Run(hasScheduler, workers, steps[..|steps| - 1]).value, steps[|steps| - 1]);
    }
  }
}
