/** The order the transfer engine keeps: jobs pass through the lookup in the order they
    were received, a client's results reach it in the order they were reported, and its
    channel is open from its registration to its close. */
module EngineOrder {
  import opened Collections
  import opened EngineState
  import opened EngineSafety

  // ----- Jobs -----

  function CountIf(b: bool): nat {
    if b then 1 else 0
  }

  predicate Consecutive(s: seq<JobId>, from: int) {
    forall i :: 0 <= i < |s| ==> s[i] == from + i
  }

  /** Where the jobs stand that are not looked up yet: with the multiplexer, in te.work, at
      the handler, in te.jobLookupDone. */
  datatype Places = Places(received: nat, clientJob: Option<JobId>, work: seq<JobId>, atHandler: Option<JobId>,
                           done: seq<JobId>)
  {
    function BeforeHandler(): int {
      received - CountIf(clientJob.Some?) - |work|
    }

    function LookedUp(): int {
      BeforeHandler() - CountIf(atHandler.Some?) - |done|
    }

    /** The first jobs are looked up; the others stand in line behind them. */
    predicate InLine() {
      && LookedUp() >= 0
      && Consecutive(done, LookedUp())
      && (atHandler.Some? ==> atHandler.value == BeforeHandler() - 1)
      && Consecutive(work, BeforeHandler())
      && (clientJob.Some? ==> clientJob.value == received - 1)
    }
  }

  function HandlerJob(h: Handler): Option<JobId> {
    match h
    case Busy(j, _) => Some(j)
    case Notifying(j) => Some(j)
    case _ => None
  }

  function PlacesOf(s: Engine): Places {
    Places(|s.jobs|, s.clientJob, s.work, HandlerJob(s.handler), s.jobLookupDone)
  }

  /** A job moves on by one place, or none does. */
  ghost predicate MovesOn(p: Places, p': Places) {
    || p' == p
    || (p.clientJob.None? && p' == p.(received := p.received + 1, clientJob := Some(p.received)))
    || (p.clientJob.Some? && p' == p.(clientJob := None, work := p.work + [p.clientJob.value]))
    || (p.work != [] && p.atHandler.None? && p' == p.(work := p.work[1..], atHandler := Some(p.work[0])))
    || (p.atHandler.Some? && p' == p.(atHandler := None, done := p.done + [p.atHandler.value]))
    || (p.done != [] && p' == p.(done := p.done[1..]))
  }

  lemma MovingKeepsLine(p: Places, p': Places)
    requires p.InLine() && MovesOn(p, p')
    ensures p'.InLine()
  {
  }

  // ----- What the steps do to the places, the owners and the results -----

  predicate Owns(jobs: seq<Job>, files: seq<File>, c: Client, f: FileId) {
    f < |files| && files[f].job < |jobs| && jobs[files[f].job].client == c
  }

  /** Files keep their jobs and jobs their clients. */
  predicate SameOwners(jobs: seq<Job>, files: seq<File>, jobs': seq<Job>, files': seq<File>) {
    && |jobs| <= |jobs'| && |files| <= |files'|
    && (forall j :: 0 <= j < |jobs| ==> jobs'[j].client == jobs[j].client)
    && (forall f :: 0 <= f < |files| ==> files'[f].job == files[f].job)
  }

  predicate SameResults(s: Engine, s': Engine) {
    s'.results == s.results && s'.tmpResults == s.tmpResults
  }

  predicate SameClients(s: Engine, s': Engine) {
    s'.workMap == s.workMap && s'.closing == s.closing
  }

  predicate SameRest(s: Engine, s': Engine) {
    SameOwners(s.jobs, s.files, s'.jobs, s'.files) && SameResults(s, s') && SameClients(s, s')
  }

  lemma RetiringKeeps(s: Engine, j: JobId, c: Client)
    requires j < |s.jobs|
    ensures var s' := FinishIfDone(s, j, c);
      && SameRest(s, s')
      && PlacesOf(s') == PlacesOf(s) && s'.files == s.files
  {
    var r := TestJob(s.jobs, s.activeJobs, s.workMap, s.resultsClosed, j, c);
    assert |r.jobs| == |s.jobs| && forall i :: 0 <= i < |s.jobs| ==> r.jobs[i].client == s.jobs[i].client;
  }

  predicate IsClientStep(step: Step) {
    step.NewClient? || step.CloseClient? || step.SeeClosed? || step.CloseWork? || step.CloseEngine?
  }

  lemma ClosedSeen(s: Engine, c: Client)
    ensures var s' := AfterSeeClosed(s, c);
      s'.jobs == s.jobs && s'.files == s.files && PlacesOf(s') == PlacesOf(s) && SameResults(s, s')
  {
    var s1 := s.(workMap := s.workMap[c := Nil]);
    assert s1.jobs == s.jobs && s1.files == s.files && PlacesOf(s1) == PlacesOf(s) && SameResults(s, s1);
    if c in s.activeJobs {
      assert AfterSeeClosed(s, c) == s1;
    } else {
      assert AfterSeeClosed(s, c) == CloseResults(s1, c);
    }
  }

  lemma ClientStep(s: Engine, step: Step)
    requires Indexed(s) && Enabled(s, step) && IsClientStep(step)
    ensures var s' := Apply(s, step);
      s'.jobs == s.jobs && s'.files == s.files && PlacesOf(s') == PlacesOf(s) && SameResults(s, s')
  {
    match step
    case SeeClosed(c) => ClosedSeen(s, c);
    case CloseEngine => assert Apply(s, step) == s.(closing := true, workMap := ShutAll(s.workMap));
    case _ =>
  }

  lemma JobComes(s: Engine, c: Client)
    requires s.clientJob.None?
    ensures var s' := AfterReceiveJob(s, c);
      MovesOn(PlacesOf(s), PlacesOf(s')) && SameRest(s, s')
  {
  }

  lemma JobSent(s: Engine)
    requires s.clientJob.Some? && s.clientJob.value < |s.jobs|
    ensures var s' := AfterSendWork(s);
      MovesOn(PlacesOf(s), PlacesOf(s')) && SameRest(s, s')
  {
  }

  lemma JobTaken(s: Engine)
    requires s.work != [] && s.work[0] < |s.jobs| && s.handler.Idle?
    ensures var s' := AfterTake(s);
      MovesOn(PlacesOf(s), PlacesOf(s')) && SameRest(s, s')
  {
  }

  lemma JobAnnounced(s: Engine)
    requires s.handler.Notifying? && s.handler.job < |s.jobs|
    ensures var s' := AfterNotify(s);
      MovesOn(PlacesOf(s), PlacesOf(s')) && SameRest(s, s')
  {
  }

  lemma JobLookedUp(s: Engine)
    requires s.jobLookupDone != [] && s.jobLookupDone[0] < |s.jobs|
    ensures var s' := AfterLookupDone(s);
      MovesOn(PlacesOf(s), PlacesOf(s')) && SameRest(s, s')
  {
    var j := s.jobLookupDone[0];
    var s1 := SetStage(s, j, LookedUp).(jobLookupDone := s.jobLookupDone[1..]);
    RetiringKeeps(s1, j, s.jobs[j].client);
  }

  lemma FileCounted(s: Engine)
    requires s.handler.Busy? && s.handler.job < |s.jobs|
    ensures var s' := AfterCount(s);
      SameRest(s, s') && PlacesOf(s') == PlacesOf(s)
  {
  }

  lemma PhaseKeepsOwners(s: Engine, f: FileId, phase: FilePhase)
    requires f < |s.files|
    ensures var s' := SetPhase(s, f, phase);
      SameRest(s, s') && PlacesOf(s') == PlacesOf(s)
  {
  }

  lemma FileSubmitted(s: Engine)
    requires InSubmission(s)
    ensures var s' := AfterSubmit(s);
      SameRest(s, s') && PlacesOf(s') == PlacesOf(s)
  {
    if s.hasScheduler {
      PhaseKeepsOwners(s, s.handler.file.value, Queued);
    } else {
      PhaseKeepsOwners(s, s.handler.file.value, AtWorker);
    }
  }

  lemma FileUncounted(s: Engine)
    requires InSubmission(s)
    ensures var s' := AfterFailedSubmit(s);
      SameRest(s, s') && PlacesOf(s') == PlacesOf(s)
  {
  }

  predicate IsLateStep(step: Step) {
    step.EndLookup? || step.SeeWorkClosed? || step.CloseFiles? || step.SchedulerExit? || step.Dispatch?
  }

  lemma LateStep(s: Engine, step: Step)
    requires Indexed(s) && Enabled(s, step) && IsLateStep(step)
    ensures var s' := Apply(s, step);
      SameRest(s, s') && PlacesOf(s') == PlacesOf(s)
  {
    match step
    case CloseFiles =>
    case Dispatch(f) => PhaseKeepsOwners(s, f, AtWorker);
    case _ =>
  }

  predicate Reports(step: Step) {
    step.Report? || step.Drop? || step.Shed? || step.WorkerExit?
  }

  /** What a step puts into te.results: a file, or that a worker left. */
  function ReportedBy(h: Handler, step: Step): Option<FileId> {
    match step
    case Report(f) => Some(f)
    case Drop(f) => Some(f)
    case Shed => if h.Busy? then h.file else None
    case _ => None
  }

  lemma ResultReported(s: Engine, f: FileId)
    requires f < |s.files|
    ensures var s' := AfterReport(s, f);
      && SameOwners(s.jobs, s.files, s'.jobs, s'.files) && PlacesOf(s') == PlacesOf(s) && SameClients(s, s')
      && s'.tmpResults == s.tmpResults && s'.results == s.results + [Some(f)]
  {
    PhaseKeepsOwners(s, f, InResults);
  }

  lemma ShedReported(s: Engine)
    requires InSubmission(s)
    ensures var s' := AfterShed(s);
      && SameOwners(s.jobs, s.files, s'.jobs, s'.files) && PlacesOf(s') == PlacesOf(s) && SameClients(s, s')
      && s'.tmpResults == s.tmpResults && s'.results == s.results + [s.handler.file]
  {
    PhaseKeepsOwners(s, s.handler.file.value, InResults);
  }

  lemma ReportAdds(s: Engine, step: Step)
    requires Indexed(s) && Enabled(s, step) && Reports(step)
    ensures var s' := Apply(s, step);
      && SameOwners(s.jobs, s.files, s'.jobs, s'.files) && PlacesOf(s') == PlacesOf(s) && SameClients(s, s')
      && s'.tmpResults == s.tmpResults && s'.results == s.results + [ReportedBy(s.handler, step)]
  {
    match step
    case Report(f) => ResultReported(s, f);
    case Drop(f) => ResultReported(s, f);
    case Shed => ShedReported(s);
    case WorkerExit =>
  }

  lemma DeliveryTakesTheFirst(s: Engine, c: Client, f: FileId)
    requires Entry(s.tmpResults, c) != [] && f == Entry(s.tmpResults, c)[0] && f < |s.files|
    requires s.files[f].job < |s.jobs|
    ensures var s' := AfterDeliver(s, c);
      && SameOwners(s.jobs, s.files, s'.jobs, s'.files) && PlacesOf(s') == PlacesOf(s) && SameClients(s, s')
      && s'.results == s.results && s'.tmpResults == Popped(s.tmpResults, c)
      && s'.files[f].phase == Delivered
  {
    var j := s.files[f].job;
    var s1 := s.(panicked := s.panicked || c in s.resultsClosed);
    RetiringKeeps(AddActive(SetPhase(s1, f, Delivered), j, -1), j, c);
  }

  lemma ExitIsCounted(s: Engine)
    requires s.results != [] && s.results[0].None?
    ensures var s' := AfterReceiveResult(s);
      && s'.jobs == s.jobs && s'.files == s.files && PlacesOf(s') == PlacesOf(s) && SameClients(s, s')
      && s'.results == s.results[1..] && s'.tmpResults == s.tmpResults
  {
  }

  lemma ResultIsBuffered(s: Engine, f: FileId, owner: Client)
    requires s.results != [] && s.results[0] == Some(f) && f < |s.files| && s.files[f].job < |s.jobs|
    requires owner == s.jobs[s.files[f].job].client
    ensures var s' := AfterReceiveResult(s);
      && SameOwners(s.jobs, s.files, s'.jobs, s'.files) && PlacesOf(s') == PlacesOf(s) && SameClients(s, s')
      && s'.results == s.results[1..]
      && s'.tmpResults == s.tmpResults[owner := Entry(s.tmpResults, owner) + [f]]
  {
  }

  predicate Moves(step: Step) {
    step.ReceiveJob? || step.SendWork? || step.Take? || step.Notify? || step.LookupDone?
  }

  /** The steps that neither report, receive nor deliver a result. */
  predicate IsQuiet(step: Step) {
    !Reports(step) && !step.ReceiveResult? && !step.Deliver?
  }

  lemma MovingStep(s: Engine, step: Step)
    requires Indexed(s) && Enabled(s, step) && Moves(step)
    ensures var s' := Apply(s, step);
      SameRest(s, s') && MovesOn(PlacesOf(s), PlacesOf(s'))
  {
    match step
    case ReceiveJob(c) => JobComes(s, c);
    case SendWork => JobSent(s);
    case Take => JobTaken(s);
    case Notify => JobAnnounced(s);
    case LookupDone => JobLookedUp(s);
  }

  lemma QuietStep(s: Engine, step: Step)
    requires Indexed(s) && Enabled(s, step) && IsQuiet(step)
    ensures var s' := Apply(s, step);
      SameOwners(s.jobs, s.files, s'.jobs, s'.files) && SameResults(s, s') && MovesOn(PlacesOf(s), PlacesOf(s'))
  {
    if Moves(step) {
      MovingStep(s, step);
    } else if IsClientStep(step) {
      ClientStep(s, step);
    } else if IsLateStep(step) {
      LateStep(s, step);
    } else {
      match step
      case Count => FileCounted(s);
      case Submit => FileSubmitted(s);
      case FailSubmit => FileUncounted(s);
    }
  }

  // ----- Jobs pass in order -----

  lemma StepKeepsLine(s: Engine, step: Step)
    requires Indexed(s) && Enabled(s, step) && PlacesOf(s).InLine()
    ensures PlacesOf(Apply(s, step)).InLine()
  {
    if IsQuiet(step) {
      QuietStep(s, step);
    } else if step.Deliver? {
      assert s.tmpResults[step.c][0] in s.tmpResults[step.c];
      DeliveryTakesTheFirst(s, step.c, s.tmpResults[step.c][0]);
    } else if step.ReceiveResult? {
      if s.results[0].None? {
        ExitIsCounted(s);
      } else {
        var f := s.results[0].value;
        ResultIsBuffered(s, f, s.jobs[s.files[f].job].client);
      }
    } else {
      ReportAdds(s, step);
    }
    MovingKeepsLine(PlacesOf(s), PlacesOf(Apply(s, step)));
  }

  lemma {:induction false} RunKeepsLine(hasScheduler: bool, workers: nat, steps: seq<Step>)
    requires Run(hasScheduler, workers, steps).Some?
    ensures PlacesOf(Run(hasScheduler, workers, steps).value).InLine()
  {
    if steps != [] {
      var before := steps[..|steps| - 1];
      RunKeepsLine(hasScheduler, workers, before);
      StepKeepsLine(Run(hasScheduler, workers, before).value, steps[|steps| - 1]);
    }
  }

  /** How far a job has come on its way through the lookup. */
  function Progress(stage: Stage): nat {
    match stage
    case Accepted => 0
    case InWork => 1
    case AtHandler => 2
    case InDone => 3
    case LookedUp => 4
  }

  /** The place of a job in line tells its stage. */
  lemma PlaceTellsStage(p: Places, h: Handler, j: JobId, stage: Stage)
    requires p.InLine() && j < p.received && p.atHandler == HandlerJob(h)
    requires StageValid(stage, j, p.clientJob, p.work, h, p.done)
    ensures Progress(stage) ==
      if j < p.LookedUp() then 4
      else if j < p.LookedUp() + |p.done| then 3
      else if j < p.BeforeHandler() then 2
      else if j < p.BeforeHandler() + |p.work| then 1
      else 0
  {
    OccursPositive(p.done, j);
    OccursPositive(p.work, j);
    if p.LookedUp() <= j < p.LookedUp() + |p.done| {
      assert p.done[j - p.LookedUp()] == j;
    }
    if p.BeforeHandler() <= j < p.BeforeHandler() + |p.work| {
      assert p.work[j - p.BeforeHandler()] == j;
    }
  }

  /** Jobs are taken, looked up and announced in the order they were received: of two jobs
      the earlier is never behind. */
  lemma JobsPassInOrder(hasScheduler: bool, workers: nat, steps: seq<Step>, i: JobId, j: JobId)
    requires workers > 0 && Run(hasScheduler, workers, steps).Some?
    requires i < j < |Run(hasScheduler, workers, steps).value.jobs|
    ensures var s := Run(hasScheduler, workers, steps).value;
      Progress(s.jobs[i].stage) >= Progress(s.jobs[j].stage)
  {
    RunKeepsInvariant(hasScheduler, workers, steps);
    RunKeepsLine(hasScheduler, workers, steps);
    var s := Run(hasScheduler, workers, steps).value;
    assert StageValid(s.jobs[i].stage, i, s.clientJob, s.work, s.handler, s.jobLookupDone);
    assert StageValid(s.jobs[j].stage, j, s.clientJob, s.work, s.handler, s.jobLookupDone);
    PlaceTellsStage(PlacesOf(s), s.handler, i, s.jobs[i].stage);
    PlaceTellsStage(PlacesOf(s), s.handler, j, s.jobs[j].stage);
  }

  // ----- Results arrive in order -----

  /** The files of a client among some entries of te.results. */
  function Mine(jobs: seq<Job>, files: seq<File>, results: seq<Option<FileId>>, c: Client): seq<FileId> {
    if results == [] then []
    else
      var last := results[|results| - 1];
      Mine(jobs, files, results[..|results| - 1], c)
        + if last.Some? && Owns(jobs, files, c, last.value) then [last.value] else []
  }

  /** The results of a client reported in a run: by a worker, or as refused or dropped by
      the scheduler. */
  ghost function Reported(hasScheduler: bool, workers: nat, steps: seq<Step>, c: Client): seq<FileId>
    requires Run(hasScheduler, workers, steps).Some?
  {
    if steps == [] then []
    else
      var before := steps[..|steps| - 1];
      var s := Run(hasScheduler, workers, before).value;
      Reported(hasScheduler, workers, before, c) + ReportedTo(s, steps[|steps| - 1], c)
  }

  function ReportedTo(s: Engine, step: Step, c: Client): seq<FileId> {
    var r := ReportedBy(s.handler, step);
    if r.Some? && Owns(s.jobs, s.files, c, r.value) then [r.value] else []
  }

  /** The results a client has been sent in a run. */
  ghost function Received(hasScheduler: bool, workers: nat, steps: seq<Step>, c: Client): seq<FileId>
    requires Run(hasScheduler, workers, steps).Some?
  {
    if steps == [] then []
    else
      var before := steps[..|steps| - 1];
      Received(hasScheduler, workers, before, c)
        + SentTo(Run(hasScheduler, workers, before).value.tmpResults, steps[|steps| - 1], c)
  }

  function SentTo(tmpResults: map<Client, seq<FileId>>, step: Step, c: Client): seq<FileId> {
    if step == Deliver(c) && Entry(tmpResults, c) != [] then [tmpResults[c][0]] else []
  }

  lemma {:induction false} MineOfTwo(jobs: seq<Job>, files: seq<File>, a: seq<Option<FileId>>, b: seq<Option<FileId>>,
                                     c: Client)
    ensures Mine(jobs, files, a + b, c) == Mine(jobs, files, a, c) + Mine(jobs, files, b, c)
  {
    if b == [] {
      assert a + b == a;
    } else {
      MineOfTwo(jobs, files, a, b[..|b| - 1], c);
      assert (a + b)[..|a + b| - 1] == a + b[..|b| - 1];
    }
  }

  lemma MineOfOne(jobs: seq<Job>, files: seq<File>, r: Option<FileId>, c: Client)
    ensures Mine(jobs, files, [r], c) == if r.Some? && Owns(jobs, files, c, r.value) then [r.value] else []
  {
    var one := [r];
    assert one[..0] == [];
  }

  lemma {:induction false} MineStays(jobs: seq<Job>, files: seq<File>, jobs': seq<Job>, files': seq<File>,
                                     results: seq<Option<FileId>>, c: Client)
    requires SameOwners(jobs, files, jobs', files') && FilesIndexed(files, |jobs|)
    requires forall i :: 0 <= i < |results| && results[i].Some? ==> results[i].value < |files|
    ensures Mine(jobs', files', results, c) == Mine(jobs, files, results, c)
  {
    if results != [] {
      MineStays(jobs, files, jobs', files', results[..|results| - 1], c);
    }
  }

  /** What waits for a client: its buffer, and its part of te.results. */
  function Waiting(s: Engine, c: Client): seq<FileId> {
    Entry(s.tmpResults, c) + Mine(s.jobs, s.files, s.results, c)
  }

  lemma WaitingAfterQuiet(s: Engine, s': Engine, c: Client)
    requires Indexed(s) && SameOwners(s.jobs, s.files, s'.jobs, s'.files) && SameResults(s, s')
    ensures Waiting(s', c) == Waiting(s, c)
  {
    MineStays(s.jobs, s.files, s'.jobs, s'.files, s.results, c);
  }

  lemma WaitingAfterReport(s: Engine, s': Engine, r: Option<FileId>, c: Client)
    requires Indexed(s) && SameOwners(s.jobs, s.files, s'.jobs, s'.files)
    requires s'.tmpResults == s.tmpResults && s'.results == s.results + [r] && (r.Some? ==> r.value < |s.files|)
    ensures Waiting(s', c) == Waiting(s, c) + if r.Some? && Owns(s.jobs, s.files, c, r.value) then [r.value] else []
  {
    MineStays(s.jobs, s.files, s'.jobs, s'.files, s.results, c);
    MineOfTwo(s'.jobs, s'.files, s.results, [r], c);
    MineOfOne(s'.jobs, s'.files, r, c);
  }

  lemma WaitingAfterDelivery(s: Engine, s': Engine, to: Client, c: Client)
    requires Indexed(s) && SameOwners(s.jobs, s.files, s'.jobs, s'.files) && s'.results == s.results
    requires Entry(s.tmpResults, to) != [] && s'.tmpResults == Popped(s.tmpResults, to)
    ensures SentTo(s.tmpResults, Deliver(to), c) + Waiting(s', c) == Waiting(s, c)
  {
    MineStays(s.jobs, s.files, s'.jobs, s'.files, s.results, c);
    assert Entry(s.tmpResults, c) == SentTo(s.tmpResults, Deliver(to), c) + Entry(s'.tmpResults, c);
  }

  lemma FirstOfMine(jobs: seq<Job>, files: seq<File>, results: seq<Option<FileId>>, c: Client)
    requires results != []
    ensures Mine(jobs, files, results, c)
         == (if results[0].Some? && Owns(jobs, files, c, results[0].value) then [results[0].value] else [])
          + Mine(jobs, files, results[1..], c)
  {
    assert [results[0]] + results[1..] == results;
    MineOfTwo(jobs, files, [results[0]], results[1..], c);
    MineOfOne(jobs, files, results[0], c);
  }

  lemma WaitingAfterBuffering(s: Engine, s': Engine, f: FileId, owner: Client, c: Client)
    requires Indexed(s) && SameOwners(s.jobs, s.files, s'.jobs, s'.files)
    requires s.results != [] && s.results[0] == Some(f) && f < |s.files| && owner == s.jobs[s.files[f].job].client
    requires s'.results == s.results[1..] && s'.tmpResults == s.tmpResults[owner := Entry(s.tmpResults, owner) + [f]]
    ensures Waiting(s', c) == Waiting(s, c)
  {
    FirstOfMine(s.jobs, s.files, s.results, c);
    MineStays(s.jobs, s.files, s'.jobs, s'.files, s.results[1..], c);
  }

  lemma WaitingAfterReception(s: Engine, c: Client)
    requires Indexed(s) && s.results != []
    ensures Waiting(AfterReceiveResult(s), c) == Waiting(s, c)
  {
    if s.results[0].None? {
      ExitIsCounted(s);
      FirstOfMine(s.jobs, s.files, s.results, c);
    } else {
      var f := s.results[0].value;
      var owner := s.jobs[s.files[f].job].client;
      ResultIsBuffered(s, f, owner);
      WaitingAfterBuffering(s, AfterReceiveResult(s), f, owner, c);
    }
  }

  lemma QuietMovesNoResult(s: Engine, step: Step, c: Client)
    requires Indexed(s) && Enabled(s, step) && IsQuiet(step)
    ensures Waiting(Apply(s, step), c) == Waiting(s, c)
  {
    QuietStep(s, step);
    WaitingAfterQuiet(s, Apply(s, step), c);
  }

  lemma DeliveryMovesOne(s: Engine, to: Client, c: Client)
    requires Indexed(s) && Enabled(s, Deliver(to))
    ensures SentTo(s.tmpResults, Deliver(to), c) + Waiting(Apply(s, Deliver(to)), c) == Waiting(s, c)
  {
    assert s.tmpResults[to][0] in s.tmpResults[to];
    DeliveryTakesTheFirst(s, to, s.tmpResults[to][0]);
    WaitingAfterDelivery(s, AfterDeliver(s, to), to, c);
  }

  lemma ReportMovesOne(s: Engine, step: Step, c: Client)
    requires Indexed(s) && Enabled(s, step) && Reports(step)
    ensures Waiting(Apply(s, step), c) == Waiting(s, c) + ReportedTo(s, step, c)
  {
    ReportAdds(s, step);
    WaitingAfterReport(s, Apply(s, step), ReportedBy(s.handler, step), c);
  }

  lemma StepMovesResults(s: Engine, step: Step, c: Client)
    requires Indexed(s) && Enabled(s, step)
    ensures SentTo(s.tmpResults, step, c) + Waiting(Apply(s, step), c) == Waiting(s, c) + ReportedTo(s, step, c)
  {
    if step.Deliver? {
      DeliveryMovesOne(s, step.c, c);
    } else if step.ReceiveResult? {
      WaitingAfterReception(s, c);
    } else if Reports(step) {
      ReportMovesOne(s, step, c);
    } else {
      QuietMovesNoResult(s, step, c);
    }
  }

  lemma AppendBoth<T>(got: seq<T>, waiting: seq<T>, told: seq<T>, sent: seq<T>, waiting': seq<T>, more: seq<T>)
    requires got + waiting == told && sent + waiting' == waiting + more
    ensures (got + sent) + waiting' == told + more
  {
    assert (got + sent) + waiting' == got + (sent + waiting') == (got + waiting) + more;
  }

  /** A client is sent its results in the order they were reported: what it has got,
      followed by what waits for it, is everything reported. */
  lemma {:induction false} ResultsArriveInOrder(hasScheduler: bool, workers: nat, steps: seq<Step>, c: Client)
    requires Run(hasScheduler, workers, steps).Some?
    ensures Received(hasScheduler, workers, steps, c) + Waiting(Run(hasScheduler, workers, steps).value, c)
         == Reported(hasScheduler, workers, steps, c)
  {
    if steps != [] {
      var before, step := steps[..|steps| - 1], steps[|steps| - 1];
      var s := Run(hasScheduler, workers, before).value;
      ResultsArriveInOrder(hasScheduler, workers, before, c);
      StepMovesResults(s, step, c);
      AppendBoth(Received(hasScheduler, workers, before, c), Waiting(s, c), Reported(hasScheduler, workers, before, c),
                 SentTo(s.tmpResults, step, c), Waiting(Apply(s, step), c), ReportedTo(s, step, c));
    }
  }

  // ----- Clients -----

  lemma NoneOpenAfterClose(workMap: map<Client, WorkChan>, c: Client)
    ensures c in ShutAll(workMap) <==> c in workMap
    ensures c in workMap ==> ShutAll(workMap)[c] != Open
  {
  }

  lemma OwnStepOfClient(s: Engine, step: Step, c: Client)
    requires Indexed(s) && Enabled(s, step) && IsClientStep(step)
    ensures var s' := Apply(s, step);
      && (c in s'.workMap <==> c in s.workMap || step == NewClient(c))
      && (c in s'.workMap && s'.workMap[c] == Open <==>
            || step == NewClient(c)
            || (c in s.workMap && s.workMap[c] == Open && step != CloseClient(c) && step != CloseEngine))
      && (s'.closing <==> s.closing || step == CloseEngine)
  {
    match step
    case SeeClosed(d) => assert Apply(s, step).workMap == s.workMap[d := Nil];
    case CloseEngine => NoneOpenAfterClose(s.workMap, c);
    case _ =>
  }

  lemma QuietStepKeepsClients(s: Engine, step: Step)
    requires Indexed(s) && Enabled(s, step) && IsQuiet(step) && !IsClientStep(step)
    ensures SameClients(s, Apply(s, step))
  {
    if Moves(step) {
      MovingStep(s, step);
    } else if IsLateStep(step) {
      LateStep(s, step);
    } else {
      match step
      case Count => FileCounted(s);
      case Submit => FileSubmitted(s);
      case FailSubmit => FileUncounted(s);
    }
  }

  lemma OtherStepKeepsClients(s: Engine, step: Step)
    requires Indexed(s) && Enabled(s, step) && !IsQuiet(step)
    ensures SameClients(s, Apply(s, step))
  {
    if step.Deliver? {
      assert s.tmpResults[step.c][0] in s.tmpResults[step.c];
      DeliveryTakesTheFirst(s, step.c, s.tmpResults[step.c][0]);
    } else if step.ReceiveResult? {
      if s.results[0].None? {
        ExitIsCounted(s);
      } else {
        var f := s.results[0].value;
        ResultIsBuffered(s, f, s.jobs[s.files[f].job].client);
      }
    } else {
      ReportAdds(s, step);
    }
  }

  /** A client's work channel is open from its registration until the client or the engine
      is closed, whichever comes first. */
  lemma {:induction false} OpenExactlyWhen(hasScheduler: bool, workers: nat, steps: seq<Step>, c: Client)
    requires Run(hasScheduler, workers, steps).Some?
    ensures var s := Run(hasScheduler, workers, steps).value;
      && (c in s.workMap <==> NewClient(c) in steps)
      && (c in s.workMap && s.workMap[c] == Open <==>
            NewClient(c) in steps && CloseClient(c) !in steps && CloseEngine !in steps)
      && (s.closing <==> CloseEngine in steps)
      && (CloseClient(c) in steps ==> c in s.workMap)
  {
    if steps != [] {
      var before, step := steps[..|steps| - 1], steps[|steps| - 1];
      OpenExactlyWhen(hasScheduler, workers, before, c);
      assert steps == before + [step];
      var s := Run(hasScheduler, workers, before).value;
      if IsClientStep(step) {
        OwnStepOfClient(s, step, c);
      } else if IsQuiet(step) {
        QuietStepKeepsClients(s, step);
      } else {
        OtherStepKeepsClients(s, step);
      }
    }
  }
}
