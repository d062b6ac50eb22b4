/** Whether the streams of one job end with the same status. */
module JobEventAgreement {
  import opened Collections
  import opened JobEvents
  import opened JobEventTheorems

  /** The stream reported a status of the job to a client that stayed, and not just the
      fallback it was opened with. */
  predicate Reported(t: Stream) {
    Ended(t) && !t.cancelled && t.written != [] && t.written != [Event(t.job, StatusKind, t.fallback)]
  }

  function LastStatus(t: Stream): Status
    requires t.written != []
  {
    t.written[|t.written| - 1].status
  }

  // ----- Without a cancellation -----

  predicate StatusIsOutcome(jobs: map<JobId, Job>, j: JobId) {
    j in jobs && jobs[j].outcome.Some? ==> jobs[j].status == jobs[j].outcome.value
  }

  predicate ReportIsOutcome(t: Stream, jobs: map<JobId, Job>) {
    Reported(t) ==> t.job in jobs && jobs[t.job].outcome == Some(LastStatus(t))
  }

  ghost predicate OutcomesReported(s: System, j: JobId) {
    && StatusIsOutcome(s.jobs, j)
    && forall i :: 0 <= i < |s.streams| && s.streams[i].job == j ==> ReportIsOutcome(s.streams[i], s.jobs)
  }

  lemma StatusStaysOutcome(s: System, step: Step, j: JobId)
    requires JobsValid(s.jobs) && Enabled(s, step) && StatusIsOutcome(s.jobs, j) && step != CancelJob(j)
    ensures StatusIsOutcome(Apply(s, step).jobs, j)
  {
    if j in s.jobs {
      assert JobValid(s.jobs[j]);
    }
  }

  lemma OutcomeStays(s: System, step: Step, j: JobId)
    requires JobsValid(s.jobs) && Enabled(s, step) && j in s.jobs && s.jobs[j].outcome.Some?
    ensures j in Apply(s, step).jobs && Apply(s, step).jobs[j].outcome == s.jobs[j].outcome
  {
    assert JobValid(s.jobs[j]);
  }

  /** A stream that the step did not end reports what it reported before. */
  lemma OldReportStays(s: System, step: Step, i: nat)
    requires JobsValid(s.jobs) && Enabled(s, step) && i < |s.streams|
    requires ReportIsOutcome(s.streams[i], s.jobs) && Ended(s.streams[i])
    ensures i < |Apply(s, step).streams| && ReportIsOutcome(Apply(s, step).streams[i], Apply(s, step).jobs)
  {
    NothingAfterTheEnd(s, step, i);
    StreamMoves(s, step, i);
    if Reported(s.streams[i]) {
      OutcomeStays(s, step, s.streams[i].job);
    }
  }

  /** A stream that the step ends reports the outcome. */
  lemma NewReportIsOutcome(s: System, step: Step, i: nat)
    requires JobsValid(s.jobs) && HubValid(s.hub, s.jobs) && Enabled(s, step)
    requires step == WriteCurrent(i) || step == TakeEvent(i) || step == KeepAlive(i)
    requires StatusIsOutcome(s.jobs, s.streams[i].job) && StreamValid(s.streams[i])
    ensures ReportIsOutcome(Apply(s, step).streams[i], s.jobs)
  {
    var j := s.streams[i].job;
    if step == TakeEvent(i) {
      assert SubsValid(s.hub.subscribers[j], j, s.jobs, s.hub.nextSub, s.hub.closed);
      assert BufferValid(BufferOf(s, i), j, s.jobs);
    } else if InMemory(s, j) {
      assert JobValid(s.jobs[j]);
    }
  }

  lemma StepReportsOutcome(s: System, step: Step, j: JobId, i: nat)
    requires JobsValid(s.jobs) && StreamsValid(s.streams) && HubValid(s.hub, s.jobs)
    requires OutcomesReported(s, j) && Enabled(s, step)
    requires i < |Apply(s, step).streams| && Apply(s, step).streams[i].job == j
    ensures ReportIsOutcome(Apply(s, step).streams[i], Apply(s, step).jobs)
  {
    if i < |s.streams| {
      StreamMoves(s, step, i);
      if Ended(s.streams[i]) {
        OldReportStays(s, step, i);
      } else if step == WriteCurrent(i) || step == TakeEvent(i) || step == KeepAlive(i) {
        NewReportIsOutcome(s, step, i);
      }
    }
  }

  lemma {:induction false} RunReportsOutcomes(steps: seq<Step>, j: JobId)
    requires Run(steps).Some? && CancelJob(j) !in steps
    ensures OutcomesReported(Run(steps).value, j)
  {
    if steps != [] {
      var n := |steps| - 1;
      assert steps == steps[..n] + [steps[n]];
      RunReportsOutcomes(steps[..n], j);
      RunKeepsInvariant(steps[..n]);
      var s := Run(steps[..n]).value;
      StatusStaysOutcome(s, steps[n], j);
      var s' := Apply(s, steps[n]);
      forall i | 0 <= i < |s'.streams| && s'.streams[i].job == j ensures ReportIsOutcome(s'.streams[i], s'.jobs) {
        StepReportsOutcome(s, steps[n], j, i);
      }
    }
  }

  // ----- Cancellations -----

  /** The run cancelled the job, and had announced its outcome before. */
  ghost predicate CancelledLate(steps: seq<Step>, j: JobId) {
    exists k :: 0 <= k < |steps| && CancelsAt(steps, j, k)
  }

  ghost predicate CancelsAt(steps: seq<Step>, j: JobId, k: nat)
    requires k < |steps|
  {
    steps[k] == CancelJob(j) && Run(steps[..k]).Some? && JobAnnounced(Run(steps[..k]).value.jobs, j)
  }

  lemma {:induction false} CancellationIsLate(steps: seq<Step>, j: JobId)
    requires Run(steps).Some? && CancelJob(j) in steps
    ensures CancelledLate(steps, j)
  {
    var n := |steps| - 1;
    if steps[n] == CancelJob(j) {
      assert CancelsAt(steps, j, n);
    } else {
      assert steps == steps[..n] + [steps[n]];
      CancellationIsLate(steps[..n], j);
      var k :| 0 <= k < n && CancelsAt(steps[..n], j, k);
      assert steps[..n][..k] == steps[..k];
      assert CancelsAt(steps, j, k);
    }
  }

  // ----- Theorems -----

  /** A report to a client that stayed is the outcome, or a cancellation of a failure. */
  lemma ReportedStatus(steps: seq<Step>, i: nat)
    requires Run(steps).Some? && i < |Run(steps).value.streams| && Reported(Run(steps).value.streams[i])
    ensures var s := Run(steps).value; var t := s.streams[i];
      && t.job in s.jobs && s.jobs[t.job].outcome.Some?
      && (LastStatus(t) == s.jobs[t.job].outcome.value
          || (LastStatus(t) == Cancelled && s.jobs[t.job].outcome.value == Failed))
  {
    TerminalEventIsTheOutcome(steps, i);
  }

  /** The streams of a job that is never cancelled agree on its outcome. */
  lemma UncancelledStreamsAgree(steps: seq<Step>, i: nat, k: nat)
    requires Run(steps).Some? && i < |Run(steps).value.streams| && k < |Run(steps).value.streams|
    requires var t, u := Run(steps).value.streams[i], Run(steps).value.streams[k];
      t.job == u.job && Reported(t) && Reported(u) && CancelJob(t.job) !in steps
    ensures var s := Run(steps).value;
      && LastStatus(s.streams[i]) == LastStatus(s.streams[k])
      && s.streams[i].job in s.jobs && s.jobs[s.streams[i].job].outcome == Some(LastStatus(s.streams[i]))
  {
    var s := Run(steps).value;
    RunReportsOutcomes(steps, s.streams[i].job);
    assert ReportIsOutcome(s.streams[i], s.jobs) && ReportIsOutcome(s.streams[k], s.jobs);
  }

  /** Two streams of one job that reported it to clients that stayed end with the same
      status, unless the job failed and was cancelled after its failure was announced:
      then one may end with the failure and the other with the cancellation. */
  lemma StreamsAgree(steps: seq<Step>, i: nat, k: nat)
    requires Run(steps).Some? && i < |Run(steps).value.streams| && k < |Run(steps).value.streams|
    requires var t, u := Run(steps).value.streams[i], Run(steps).value.streams[k];
      t.job == u.job && Reported(t) && Reported(u)
    ensures var s := Run(steps).value; var t, u := s.streams[i], s.streams[k];
      LastStatus(t) != LastStatus(u) ==>
        && {LastStatus(t), LastStatus(u)} == {Failed, Cancelled}
        && t.job in s.jobs && s.jobs[t.job].outcome == Some(Failed) && CancelledLate(steps, t.job)
  {
    var j := Run(steps).value.streams[i].job;
    if CancelJob(j) in steps {
      CancellationIsLate(steps, j);
      ReportedStatus(steps, i);
      ReportedStatus(steps, k);
    } else {
      UncancelledStreamsAgree(steps, i, k);
    }
  }

  function Follower(j: JobId, id: SubId): Stream {
    Stream(j, id, true, NoStatus, Looping, false, [Event(j, StatusKind, Running)])
  }

  lemma Join(steps: seq<Step>, s: System, j: JobId) returns (steps': seq<Step>, s': System)
    requires Run(steps) == Some(s) && JobAt(s, j, Executing) && s.jobs[j].status == Running && s.jobs[j].inMemory
    ensures Run(steps') == Some(s') && JobAt(s', j, Executing) && s'.jobs[j].status == Running && s'.jobs[j].inMemory
    ensures s'.streams == s.streams + [Follower(j, s.hub.nextSub)]
  {
    var i, t := |s.streams|, Stream(j, s.hub.nextSub, true, NoStatus, Registered, false, []);
    steps', s' := More(steps, s, Open(j, NoStatus, true));
    assert s'.streams == s.streams + [t];
    steps', s' := More(steps', s', Count(i));
    assert s'.streams == s.streams + [t.(position := Counted)] && s'.jobs.Keys == s.jobs.Keys;
    assert s'.jobs[j] == s.jobs[j].(watchers := s.jobs[j].watchers + 1);
    steps', s' := More(steps', s', WriteCurrent(i));
    assert s'.streams[i].written == [Event(j, StatusKind, Running)];
    assert s'.streams == s.streams + [Follower(j, s.hub.nextSub)];
  }

  lemma TwoFollow(j: JobId) returns (steps: seq<Step>, s: System)
    ensures Run(steps) == Some(s) && JobAt(s, j, Executing) && s.jobs[j].inMemory
    ensures |s.streams| == 2 && s.streams[0] == Follower(j, s.streams[0].sub)
    ensures s.streams[1] == Follower(j, s.streams[1].sub)
  {
    steps, s := [], START;
    steps, s := More(steps, s, Submit(j));
    steps, s := More(steps, s, SetRunning(j));
    steps, s := More(steps, s, AnnounceRunning(j));
    steps, s := Join(steps, s, j);
    steps, s := Join(steps, s, j);
  }

  predicate EndsWith(t: Stream, j: JobId, status: Status) {
    t.job == j && Reported(t) && LastStatus(t) == status
  }

  lemma FirstReportsFailure(steps: seq<Step>, s: System, j: JobId) returns (steps': seq<Step>, s': System)
    requires Run(steps) == Some(s) && JobAt(s, j, Executing) && s.jobs[j].inMemory
    requires |s.streams| == 2 && s.streams[0] == Follower(j, s.streams[0].sub)
    ensures Run(steps') == Some(s') && JobAt(s', j, FinalRead(Failed)) && s'.jobs[j].inMemory
    ensures s'.jobs[j].status == Failed
    ensures |s'.streams| == 2 && EndsWith(s'.streams[0], j, Failed) && s'.streams[1] == s.streams[1]
  {
    steps', s' := More(steps, s, SetFinal(j, Failed));
    steps', s' := More(steps', s', ReadFinal(j));
    steps', s' := More(steps', s', KeepAlive(0));
  }

  /** They need not agree: a stream that is told of a failure before it is announced, and
      one that takes its next turn after the cancellation. */
  lemma StreamsMayDisagree(j: JobId) returns (steps: seq<Step>)
    ensures Run(steps).Some?
    ensures var s := Run(steps).value;
      |s.streams| == 2 && EndsWith(s.streams[0], j, Failed) && EndsWith(s.streams[1], j, Cancelled)
  {
    var s;
    steps, s := TwoFollow(j);
    steps, s := FirstReportsFailure(steps, s, j);
    steps, s := More(steps, s, AnnounceFinal(j));
    steps, s := More(steps, s, CancelJob(j));
    steps, s := More(steps, s, KeepAlive(1));
  }
}
