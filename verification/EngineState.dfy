/** The transfer engine's books (client/handle_http.go): jobs and the files they
    hand out, the channels between clients, multiplexer, job handler, scheduler and
    workers, and what each atomic step does to them. An operation that would panic
    in the source, a send on or a close of a closed channel, sets `panicked`. */
module EngineState {
  import opened Collections

  type Client = nat
  type JobId = nat
  type FileId = nat

  /** Where a job is on its way through the lookup. */
  datatype Stage = Accepted | InWork | AtHandler | InDone | LookedUp

  /** `active` is activeXfer; `finishes` counts the calls of finishJob. */
  datatype Job = Job(client: Client, stage: Stage, active: int, finishes: nat)
  {
    predicate Finished() { stage == LookedUp && active == 0 }
  }

  datatype FilePhase = Submitting | Queued | AtWorker | InResults | Buffered | Delivered | Uncounted

  datatype File = File(job: JobId, phase: FilePhase)
  {
    predicate Outstanding() { phase != Delivered && phase != Uncounted }
  }

  /** A client's entry in workMap: an open channel, a closed one the multiplexer has
      not noticed, or nil. */
  datatype WorkChan = Open | Closed | Nil

  datatype Handler = Idle | Busy(job: JobId, file: Option<FileId>) | Notifying(job: JobId) | Stopping | Exited

  datatype Engine = Engine(
    hasScheduler: bool, jobs: seq<Job>, files: seq<File>,
    workMap: map<Client, WorkChan>, resultsClosed: set<Client>,
    clientJob: Option<JobId>, work: seq<JobId>, workClosed: bool,
    handler: Handler, jobLookupDone: seq<JobId>,
    schedulerUp: bool, filesClosed: bool, workersUp: nat,
    results: seq<Option<FileId>>, tmpResults: map<Client, seq<FileId>>,
    activeJobs: map<Client, seq<JobId>>, workersActive: int,
    closing: bool, muxDone: bool, panicked: bool)

  function Start(hasScheduler: bool, workers: nat): Engine {
    Engine(hasScheduler, [], [], map[], {}, None, [], false, Idle, [], hasScheduler, false, workers,
           [], map[], map[], workers, false, false, false)
  }

  /** The entry of a client, or nothing. */
  function Entry<T>(m: map<Client, seq<T>>, c: Client): seq<T> {
    if c in m then m[c] else []
  }

  function AtWorkerShare(): File -> int {
    (f: File) => if f.phase == AtWorker then 1 else 0
  }

  function OutstandingShare(j: JobId): File -> int {
    (f: File) => if f.job == j && f.Outstanding() then 1 else 0
  }

  predicate FreeWorker(s: Engine) {
    Sum(s.files, AtWorkerShare()) < s.workersUp
  }

  function SetPhase(s: Engine, f: FileId, phase: FilePhase): Engine
    requires f < |s.files|
  {
    s.(files := s.files[f := s.files[f].(phase := phase)])
  }

  function SetStage(s: Engine, j: JobId, stage: Stage): Engine
    requires j < |s.jobs|
  {
    s.(jobs := s.jobs[j := s.jobs[j].(stage := stage)])
  }

  function AddActive(s: Engine, j: JobId, n: int): Engine
    requires j < |s.jobs|
  {
    s.(jobs := s.jobs[j := s.jobs[j].(active := s.jobs[j].active + n)])
  }

  function CloseResults(s: Engine, c: Client): Engine {
    s.(resultsClosed := s.resultsClosed + {c}, panicked := s.panicked || c in s.resultsClosed)
  }

  function Without(jobs: seq<JobId>, j: JobId): seq<JobId> {
    Select(jobs, (i: JobId) => i != j)
  }

  /** What finishJob leaves of the books, and whether it closed a closed channel. */
  datatype Retirement = Retirement(jobs: seq<Job>, activeJobs: map<Client, seq<JobId>>,
                                   resultsClosed: set<Client>, panics: bool)

  predicate Gone(workMap: map<Client, WorkChan>, c: Client) {
    !(c in workMap && workMap[c] != Nil)
  }

  function WithFinish(jobs: seq<Job>, j: JobId): seq<Job>
    requires j < |jobs|
  {
    jobs[j := jobs[j].(finishes := jobs[j].finishes + 1)]
  }

  /** finishJob. */
  function FinishJob(jobs: seq<Job>, activeJobs: map<Client, seq<JobId>>, workMap: map<Client, WorkChan>,
                     resultsClosed: set<Client>, j: JobId, c: Client): Retirement
    requires j < |jobs|
  {
    var mine := Entry(activeJobs, c);
    if |mine| <= 1 then
      if Gone(workMap, c)
      then Retirement(WithFinish(jobs, j), activeJobs - {c}, resultsClosed + {c}, c in resultsClosed)
      else Retirement(WithFinish(jobs, j), activeJobs - {c}, resultsClosed, false)
    else
      Retirement(WithFinish(jobs, j), activeJobs[c := Without(mine, j)], resultsClosed, false)
  }

  /** The test both events that can end a job apply. */
  function TestJob(jobs: seq<Job>, activeJobs: map<Client, seq<JobId>>, workMap: map<Client, WorkChan>,
                   resultsClosed: set<Client>, j: JobId, c: Client): Retirement
    requires j < |jobs|
  {
    if jobs[j].Finished() then FinishJob(jobs, activeJobs, workMap, resultsClosed, j, c)
    else Retirement(jobs, activeJobs, resultsClosed, false)
  }

  function FinishIfDone(s: Engine, j: JobId, c: Client): Engine
    requires j < |s.jobs|
  {
    var r := TestJob(s.jobs, s.activeJobs, s.workMap, s.resultsClosed, j, c);
    s.(jobs := r.jobs, activeJobs := r.activeJobs, resultsClosed := r.resultsClosed, panicked := s.panicked || r.panics)
  }

  // ----- The multiplexer -----

  /** A client's job is received. */
  function AfterReceiveJob(s: Engine, c: Client): Engine {
    var j := |s.jobs|;
    s.(jobs := s.jobs + [Job(c, Accepted, 0, 0)], clientJob := Some(j),
       activeJobs := s.activeJobs[c := Entry(s.activeJobs, c) + [j]])
  }

  /** A client's work channel is found closed. */
  function AfterSeeClosed(s: Engine, c: Client): Engine {
    var s1 := s.(workMap := s.workMap[c := Nil]);
    if c in s.activeJobs then s1 else CloseResults(s1, c)
  }

  function AllNil(workMap: map<Client, WorkChan>): bool {
    forall c :: c in workMap ==> workMap[c] == Nil
  }

  predicate NoneOpen(workMap: map<Client, WorkChan>) {
    forall c :: c in workMap ==> workMap[c] != Open
  }

  function AfterCloseWork(s: Engine): Engine {
    s.(workClosed := true, panicked := s.panicked || s.workClosed)
  }

  function AfterSendWork(s: Engine): Engine
    requires s.clientJob.Some? && s.clientJob.value < |s.jobs|
  {
    var j := s.clientJob.value;
    SetStage(s, j, InWork).(clientJob := None, work := s.work + [j], panicked := s.panicked || s.workClosed)
  }

  function AfterReceiveResult(s: Engine): Engine
    requires s.results != []
    requires s.results[0].Some? ==> s.results[0].value < |s.files| && s.files[s.results[0].value].job < |s.jobs|
  {
    var r := s.results[0];
    if r.None? then
      s.(results := s.results[1..], workersActive := s.workersActive - 1, muxDone := s.workersActive == 1)
    else
      var c := s.jobs[s.files[r.value].job].client;
      s.(results := s.results[1..], files := s.files[r.value := s.files[r.value].(phase := Buffered)],
         tmpResults := s.tmpResults[c := Entry(s.tmpResults, c) + [r.value]])
  }

  function Popped(tmpResults: map<Client, seq<FileId>>, c: Client): map<Client, seq<FileId>>
    requires Entry(tmpResults, c) != []
  {
    if |tmpResults[c]| == 1 then tmpResults - {c} else tmpResults[c := tmpResults[c][1..]]
  }

  /** The first buffered result of a client is sent to it. */
  function AfterDeliver(s: Engine, c: Client): Engine
    requires Entry(s.tmpResults, c) != [] && Entry(s.tmpResults, c)[0] < |s.files|
    requires s.files[Entry(s.tmpResults, c)[0]].job < |s.jobs|
  {
    var f := Entry(s.tmpResults, c)[0];
    var j := s.files[f].job;
    var s1 := s.(panicked := s.panicked || c in s.resultsClosed);
    FinishIfDone(AddActive(SetPhase(s1, f, Delivered), j, -1), j, c).(tmpResults := Popped(s.tmpResults, c))
  }

  function AfterLookupDone(s: Engine): Engine
    requires s.jobLookupDone != [] && s.jobLookupDone[0] < |s.jobs|
  {
    var j := s.jobLookupDone[0];
    FinishIfDone(SetStage(s, j, LookedUp).(jobLookupDone := s.jobLookupDone[1..]), j, s.jobs[j].client)
  }

  function Shut(w: WorkChan): WorkChan {
    if w == Open then Closed else w
  }

  function ShutAll(workMap: map<Client, WorkChan>): map<Client, WorkChan> {
    map c | c in workMap :: Shut(workMap[c])
  }

  function AfterClose(s: Engine): Engine {
    s.(closing := true, workMap := ShutAll(s.workMap))
  }

  // ----- The job handler, the scheduler and the workers -----

  function AfterTake(s: Engine): Engine
    requires s.work != [] && s.work[0] < |s.jobs|
  {
    SetStage(s, s.work[0], AtHandler).(work := s.work[1..], handler := Busy(s.work[0], None))
  }

  /** A file is counted before it is submitted. */
  function AfterCount(s: Engine): Engine
    requires s.handler.Busy? && s.handler.job < |s.jobs|
  {
    var j := s.handler.job;
    AddActive(s, j, 1).(files := s.files + [File(j, Submitting)], handler := Busy(j, Some(|s.files|)))
  }

  predicate InSubmission(s: Engine) {
    && s.handler.Busy? && s.handler.job < |s.jobs|
    && s.handler.file.Some? && s.handler.file.value < |s.files|
  }

  /** The scheduler admitted the file, or a worker took it from te.files. */
  function AfterSubmit(s: Engine): Engine
    requires InSubmission(s)
  {
    var s' := SetPhase(s, s.handler.file.value, if s.hasScheduler then Queued else AtWorker)
              .(handler := Busy(s.handler.job, None));
    if s.hasScheduler then s' else s'.(panicked := s.panicked || s.filesClosed)
  }

  /** The scheduler refused the file: a synthetic result takes its place. */
  function AfterShed(s: Engine): Engine
    requires InSubmission(s)
  {
    SetPhase(s, s.handler.file.value, InResults)
      .(results := s.results + [Some(s.handler.file.value)], handler := Busy(s.handler.job, None))
  }

  /** The submission failed without a result: uncountSubmission. */
  function AfterFailedSubmit(s: Engine): Engine
    requires InSubmission(s)
  {
    AddActive(SetPhase(s, s.handler.file.value, Uncounted), s.handler.job, -1).(handler := Busy(s.handler.job, None))
  }

  function AfterNotify(s: Engine): Engine
    requires s.handler.Notifying? && s.handler.job < |s.jobs|
  {
    SetStage(s, s.handler.job, InDone).(jobLookupDone := s.jobLookupDone + [s.handler.job], handler := Idle)
  }

  function AfterCloseFiles(s: Engine): Engine {
    s.(filesClosed := true, handler := Exited, panicked := s.panicked || s.filesClosed)
  }

  function AfterDispatch(s: Engine, f: FileId): Engine
    requires f < |s.files|
  {
    SetPhase(s, f, AtWorker).(panicked := s.panicked || s.filesClosed)
  }

  /** A worker reports a file, or the scheduler drops it at its exit. */
  function AfterReport(s: Engine, f: FileId): Engine
    requires f < |s.files|
  {
    SetPhase(s, f, InResults).(results := s.results + [Some(f)])
  }

  function AfterWorkerExit(s: Engine): Engine
    requires s.workersUp > 0
  {
    s.(workersUp := s.workersUp - 1, results := s.results + [None])
  }

  // ----- Steps and runs -----

  datatype Step =
    | NewClient(c: Client) | CloseClient(c: Client)
    | ReceiveJob(c: Client) | SeeClosed(c: Client) | CloseWork | SendWork
    | ReceiveResult | Deliver(c: Client) | LookupDone | CloseEngine
    | Take | Count | Submit | Shed | FailSubmit | EndLookup | Notify | SeeWorkClosed | CloseFiles
    | Dispatch(f: FileId) | Drop(f: FileId) | SchedulerExit | Report(f: FileId) | WorkerExit

  predicate InPhase(s: Engine, f: FileId, phase: FilePhase) {
    f < |s.files| && s.files[f].phase == phase
  }

  /** When a step can be taken, for steps that name only what exists. */
  ghost predicate Enabled(s: Engine, step: Step) {
    match step
    case NewClient(c) => c !in s.workMap && !s.closing
    case CloseClient(c) => c in s.workMap && s.workMap[c] == Open
    case ReceiveJob(c) => !s.muxDone && s.clientJob.None? && c in s.workMap && s.workMap[c] == Open
    case SeeClosed(c) => !s.muxDone && s.clientJob.None? && c in s.workMap && s.workMap[c] == Closed
    case CloseWork => !s.muxDone && s.closing && AllNil(s.workMap) && !s.workClosed
    case SendWork => !s.muxDone && s.clientJob.Some?
    case ReceiveResult => !s.muxDone && s.results != []
    case Deliver(c) => !s.muxDone && Entry(s.tmpResults, c) != []
    case LookupDone => !s.muxDone && s.jobLookupDone != []
    case CloseEngine => !s.muxDone
    case Take => s.handler.Idle? && s.work != []
    case Count => s.handler.Busy? && s.handler.file.None?
    case Submit => s.handler.Busy? && s.handler.file.Some? && (s.hasScheduler || FreeWorker(s))
    case Shed => s.handler.Busy? && s.handler.file.Some? && s.hasScheduler
    case FailSubmit => s.handler.Busy? && s.handler.file.Some?
    case EndLookup => s.handler.Busy? && s.handler.file.None?
    case Notify => s.handler.Notifying?
    case SeeWorkClosed => s.handler.Idle? && s.work == [] && s.workClosed
    case CloseFiles => s.handler.Stopping? && !s.schedulerUp
    case Dispatch(f) => s.schedulerUp && InPhase(s, f, Queued) && FreeWorker(s)
    case Drop(f) => s.schedulerUp && s.handler.Stopping? && InPhase(s, f, Queued)
    case SchedulerExit => s.schedulerUp && s.handler.Stopping? && forall f :: !InPhase(s, f, Queued)
    case Report(f) => InPhase(s, f, AtWorker)
    case WorkerExit => s.filesClosed && s.workersUp > 0 && FreeWorker(s)
  }

  // ----- Every index in the books names a job or a file that exists -----

  predicate JobsIndexed(n: nat, clientJob: Option<JobId>, work: seq<JobId>, h: Handler, done: seq<JobId>) {
    && (clientJob.Some? ==> clientJob.value < n)
    && (forall i :: 0 <= i < |work| ==> work[i] < n)
    && (forall i :: 0 <= i < |done| ==> done[i] < n)
    && (h.Busy? || h.Notifying? ==> h.job < n)
  }

  predicate FilesIndexed(files: seq<File>, n: nat) {
    forall f :: 0 <= f < |files| ==> files[f].job < n
  }

  predicate ResultsIndexed(results: seq<Option<FileId>>, h: Handler, n: nat) {
    && (forall i :: 0 <= i < |results| && results[i].Some? ==> results[i].value < n)
    && (h.Busy? && h.file.Some? ==> h.file.value < n)
  }

  predicate BuffersIndexed(tmpResults: map<Client, seq<FileId>>, n: nat) {
    forall c :: c in tmpResults ==> tmpResults[c] != [] && forall f :: f in tmpResults[c] ==> f < n
  }

  predicate Indexed(s: Engine) {
    && JobsIndexed(|s.jobs|, s.clientJob, s.work, s.handler, s.jobLookupDone)
    && FilesIndexed(s.files, |s.jobs|)
    && ResultsIndexed(s.results, s.handler, |s.files|)
    && BuffersIndexed(s.tmpResults, |s.files|)
  }

  ghost function Apply(s: Engine, step: Step): Engine
    requires Indexed(s) && Enabled(s, step)
  {
    match step
    case NewClient(c) => s.(workMap := s.workMap[c := Open])
    case CloseClient(c) => s.(workMap := s.workMap[c := Closed])
    case ReceiveJob(c) => AfterReceiveJob(s, c)
    case SeeClosed(c) => AfterSeeClosed(s, c)
    case CloseWork => AfterCloseWork(s)
    case SendWork => AfterSendWork(s)
    case ReceiveResult => AfterReceiveResult(s)
    case Deliver(c) =>
      assert s.tmpResults[c][0] in s.tmpResults[c];
      AfterDeliver(s, c)
    case LookupDone => AfterLookupDone(s)
    case CloseEngine => AfterClose(s)
    case Take => AfterTake(s)
    case Count => AfterCount(s)
    case Submit => AfterSubmit(s)
    case Shed => AfterShed(s)
    case FailSubmit => AfterFailedSubmit(s)
    case EndLookup => s.(handler := Notifying(s.handler.job))
    case Notify => AfterNotify(s)
    case SeeWorkClosed => s.(handler := Stopping)
    case CloseFiles => AfterCloseFiles(s)
    case Dispatch(f) => AfterDispatch(s, f)
    case Drop(f) => AfterReport(s, f)
    case SchedulerExit => s.(schedulerUp := false)
    case Report(f) => AfterReport(s, f)
    case WorkerExit => AfterWorkerExit(s)
  }

  /** The state a run leads to, if each of its steps is possible where it is taken. */
  ghost function Run(hasScheduler: bool, workers: nat, steps: seq<Step>): Option<Engine> {
    if steps == [] then Some(Start(hasScheduler, workers))
    else
      match Run(hasScheduler, workers, steps[..|steps| - 1])
      case None => None
      case Some(s) =>
        var step := steps[|steps| - 1];
        if Indexed(s) && Enabled(s, step) then Some(Apply(s, step)) else None
  }

  // ----- What every run keeps -----

  predicate HandlerHas(h: Handler, j: JobId) {
    (h.Busy? || h.Notifying?) && h.job == j
  }

  /** A job is in the one place its stage names. */
  ghost predicate StageValid(stage: Stage, j: JobId, clientJob: Option<JobId>, work: seq<JobId>, h: Handler,
                             done: seq<JobId>)
  {
    && (stage == Accepted <==> clientJob == Some(j))
    && Occurrences(work, j) == (if stage == InWork then 1 else 0)
    && (stage == AtHandler <==> HandlerHas(h, j))
    && Occurrences(done, j) == (if stage == InDone then 1 else 0)
  }

  ghost predicate StagesValid(jobs: seq<Job>, clientJob: Option<JobId>, work: seq<JobId>, h: Handler, done: seq<JobId>)
  {
    forall j :: 0 <= j < |jobs| ==> StageValid(jobs[j].stage, j, clientJob, work, h, done)
  }

  /** activeXfer counts the files of the job that are counted and not delivered. */
  predicate LedgerValid(job: Job, j: JobId, files: seq<File>) {
    && job.active == Sum(files, OutstandingShare(j))
    && job.finishes == (if job.Finished() then 1 else 0)
  }

  ghost predicate LedgerBalances(jobs: seq<Job>, files: seq<File>) {
    forall j :: 0 <= j < |jobs| ==> LedgerValid(jobs[j], j, files)
  }

  /** activeJobs lists, per client, its jobs that are not finished, once each. */
  ghost predicate ListedRight(job: Job, j: JobId, activeJobs: map<Client, seq<JobId>>, c: Client) {
    Occurrences(Entry(activeJobs, c), j) == (if job.client == c && !job.Finished() then 1 else 0)
  }

  ghost predicate ActiveJobsValid(jobs: seq<Job>, activeJobs: map<Client, seq<JobId>>) {
    && (forall c, j :: 0 <= j < |jobs| ==> ListedRight(jobs[j], j, activeJobs, c))
    && (forall c :: c in activeJobs ==> activeJobs[c] != [] && forall j :: j in activeJobs[c] ==> j < |jobs|)
  }

  predicate ClientsKnown(jobs: seq<Job>, workMap: map<Client, WorkChan>) {
    forall j :: 0 <= j < |jobs| ==> jobs[j].client in workMap
  }

  predicate ClosedRight(resultsClosed: set<Client>, workMap: map<Client, WorkChan>,
                        activeJobs: map<Client, seq<JobId>>, c: Client)
  {
    c in resultsClosed <==> c in workMap && workMap[c] == Nil && c !in activeJobs
  }

  ghost predicate ResultsClosedValid(resultsClosed: set<Client>, workMap: map<Client, WorkChan>,
                                     activeJobs: map<Client, seq<JobId>>)
  {
    forall c :: ClosedRight(resultsClosed, workMap, activeJobs, c)
  }

  /** A file is in te.results exactly when its phase says so, and is being submitted
      exactly when the handler says so. */
  ghost predicate FileValid(file: File, f: FileId, results: seq<Option<FileId>>, h: Handler, schedulerUp: bool) {
    && Occurrences(results, Some(f)) == (if file.phase == InResults then 1 else 0)
    && (file.phase == Submitting <==> h == Busy(file.job, Some(f)))
    && (file.phase == Queued ==> schedulerUp)
  }

  ghost predicate FilesValid(files: seq<File>, results: seq<Option<FileId>>, h: Handler, schedulerUp: bool) {
    && (forall f :: 0 <= f < |files| ==> FileValid(files[f], f, results, h, schedulerUp))
    && (h.Busy? && h.file.Some? ==> h.file.value < |files| && files[h.file.value] == File(h.job, Submitting))
  }

  /** A client's buffer holds exactly the buffered results of its own jobs. */
  ghost predicate BufferedRight(file: File, f: FileId, owner: Client, tmpResults: map<Client, seq<FileId>>, c: Client) {
    Occurrences(Entry(tmpResults, c), f) == (if file.phase == Buffered && owner == c then 1 else 0)
  }

  ghost predicate BuffersValid(jobs: seq<Job>, files: seq<File>, tmpResults: map<Client, seq<FileId>>)
    requires FilesIndexed(files, |jobs|)
  {
    forall c, f :: 0 <= f < |files| ==> BufferedRight(files[f], f, jobs[files[f].job].client, tmpResults, c)
  }

  ghost predicate ChannelsValid(s: Engine)
    requires Indexed(s)
  {
    && (s.clientJob.Some? ==>
          var c := s.jobs[s.clientJob.value].client; c in s.workMap && s.workMap[c] != Nil)
    && (s.workClosed ==> s.closing && AllNil(s.workMap))
    && (s.closing ==> NoneOpen(s.workMap))
    && (s.handler.Stopping? || s.handler.Exited? ==> s.workClosed && s.work == [])
    && (s.filesClosed <==> s.handler.Exited?)
    && (s.filesClosed ==> !s.schedulerUp)
    && (!s.schedulerUp ==> !s.hasScheduler || s.handler.Stopping? || s.handler.Exited?)
    && !s.panicked
  }

  ghost predicate WorkersValid(s: Engine) {
    && Sum(s.files, AtWorkerShare()) <= s.workersUp
    && s.workersActive == s.workersUp + Occurrences(s.results, None)
    && (s.workersUp == 0 ==> s.filesClosed)
    && (s.workersUp == 0 && s.results != [] ==> s.results[|s.results| - 1] == None)
    && (s.muxDone <==> s.workersActive == 0)
    && (s.muxDone ==> s.results == [])
  }

  ghost predicate Invariant(s: Engine) {
    && Indexed(s)
    && StagesValid(s.jobs, s.clientJob, s.work, s.handler, s.jobLookupDone)
    && LedgerBalances(s.jobs, s.files)
    && ActiveJobsValid(s.jobs, s.activeJobs)
    && ClientsKnown(s.jobs, s.workMap)
    && ResultsClosedValid(s.resultsClosed, s.workMap, s.activeJobs)
    && FilesValid(s.files, s.results, s.handler, s.schedulerUp)
    && BuffersValid(s.jobs, s.files, s.tmpResults)
    && ChannelsValid(s)
    && WorkersValid(s)
  }
}
