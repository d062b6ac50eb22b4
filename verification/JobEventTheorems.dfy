/** What the event streams promise, over every run. */
module JobEventTheorems {
  import opened Collections
  import opened JobEvents

  // ----- Every step keeps the invariant -----

  lemma JobsKeep(s: System, step: Step)
    requires JobsValid(s.jobs) && Enabled(s, step)
    ensures JobsValid(Apply(s, step).jobs)
  {
  }

  /** A job that has announced its end stays so, and keeps its outcome. */
  lemma AnnouncedStays(s: System, step: Step, j: JobId)
    requires Enabled(s, step) && JobAnnounced(s.jobs, j)
    ensures JobAnnounced(Apply(s, step).jobs, j) && Apply(s, step).jobs[j].outcome == s.jobs[j].outcome
  {
  }

  lemma WritingKeeps(t: Stream, ev: Event)
    requires StreamValid(t) && (t.position == Counted || t.position == Looping)
    ensures StreamValid(t.(written := t.written + [Shown(ev)],
                           position := if IsTerminal(ev.status) then Leaving else Looping))
  {
    assert (t.written + [Shown(ev)])[..|t.written|] == t.written;
  }

  lemma WithWrittenKeeps(streams: seq<Stream>, i: nat, ev: Event)
    requires StreamsValid(streams) && i < |streams|
    requires streams[i].position == Counted || streams[i].position == Looping
    ensures StreamsValid(WithWritten(streams, i, ev))
  {
    WritingKeeps(streams[i], ev);
  }

  lemma StreamsKeep(s: System, step: Step)
    requires StreamsValid(s.streams) && Enabled(s, step)
    ensures StreamsValid(Apply(s, step).streams)
  {
    match step
    case WriteCurrent(i) =>
      var j := s.streams[i].job;
      var status := if InMemory(s, j) then s.jobs[j].status else s.streams[i].fallback;
      WithWrittenKeeps(s.streams, i, Event(j, StatusKind, status));
    case TakeEvent(i) => WithWrittenKeeps(s.streams, i, BufferOf(s, i)[0]);
    case KeepAlive(i) =>
      if AfterKeepAlive(s, i) != s {
        WithWrittenKeeps(s.streams, i, Event(s.streams[i].job, StatusKind, s.jobs[s.streams[i].job].status));
      }
    case _ =>
  }

  lemma PublishKeepsChannels(streams: seq<Stream>, hub: Hub, ev: Event)
    requires ChannelsValid(streams, hub)
    ensures ChannelsValid(streams, Publish(hub, ev))
  {
    forall i | 0 <= i < |streams| ensures ChannelValid(streams[i], Publish(hub, ev)) {
      assert ChannelValid(streams[i], hub);
    }
  }

  lemma SubscribeKeepsChannels(streams: seq<Stream>, hub: Hub, t: Stream)
    requires ChannelsValid(streams, hub) && t.sub == hub.nextSub && t.sub !in hub.closed
    ensures ChannelsValid(streams + [t], Subscribe(hub, t.job))
  {
    var all := streams + [t];
    forall i | 0 <= i < |all| ensures ChannelValid(all[i], Subscribe(hub, t.job)) {
      assert i < |streams| ==> ChannelValid(streams[i], hub);
    }
    assert forall i :: 0 <= i < |streams| ==> ChannelValid(streams[i], hub);
  }

  lemma LeavingKeepsChannels(streams: seq<Stream>, hub: Hub, i: nat)
    requires ChannelsValid(streams, hub) && i < |streams|
    ensures ChannelsValid(WithPosition(streams, i, Unsubscribed), Unsubscribe(hub, streams[i].job, streams[i].sub))
  {
    var left := WithPosition(streams, i, Unsubscribed);
    var hub' := Unsubscribe(hub, streams[i].job, streams[i].sub);
    forall k | 0 <= k < |left| ensures ChannelValid(left[k], hub') {
      assert ChannelValid(streams[k], hub);
      if k != i && HasChannel(left[k]) && left[k].job == streams[i].job {
        assert left[k].sub in hub.subscribers[left[k].job] - {streams[i].sub};
      }
    }
  }

  lemma TakingKeepsChannels(s: System, i: nat)
    requires ChannelsValid(s.streams, s.hub) && Enabled(s, TakeEvent(i))
    ensures ChannelsValid(AfterTake(s, i).streams, AfterTake(s, i).hub)
  {
    var t := AfterTake(s, i);
    forall k | 0 <= k < |t.streams| ensures ChannelValid(t.streams[k], t.hub) {
      assert ChannelValid(s.streams[k], s.hub);
    }
  }

  /** A stream that only moves on, still holding its channel or having given it up. */
  lemma MovingKeepsChannels(streams: seq<Stream>, hub: Hub, i: nat, t: Stream)
    requires ChannelsValid(streams, hub) && i < |streams| && t.job == streams[i].job && t.sub == streams[i].sub
    requires HasChannel(t) ==> HasChannel(streams[i])
    ensures ChannelsValid(streams[i := t], hub)
  {
    assert ChannelValid(streams[i], hub);
  }

  lemma ChannelsKeep(s: System, step: Step)
    requires ChannelsValid(s.streams, s.hub) && HubValid(s.hub, s.jobs) && Enabled(s, step)
    ensures ChannelsValid(Apply(s, step).streams, Apply(s, step).hub)
  {
    var t := Apply(s, step);
    match step
    case AnnounceRunning(j) => PublishKeepsChannels(s.streams, s.hub, Event(j, NoKind, Running));
    case AnnounceProgress(j) => PublishKeepsChannels(s.streams, s.hub, Event(j, ProgressKind, NoStatus));
    case AnnounceFinal(j) => PublishKeepsChannels(s.streams, s.hub, Event(j, StatusKind, s.jobs[j].execution.status));
    case Open(j, fallback, found) =>
      SubscribeKeepsChannels(s.streams, s.hub, Stream(j, s.hub.nextSub, found, fallback, Registered, false, []));
    case LeaveHub(i) => LeavingKeepsChannels(s.streams, s.hub, i);
    case TakeEvent(i) => TakingKeepsChannels(s, i);
    case Count(i) => MovingKeepsChannels(s.streams, s.hub, i, t.streams[i]);
    case WriteCurrent(i) => MovingKeepsChannels(s.streams, s.hub, i, t.streams[i]);
    case KeepAlive(i) =>
      if t != s {
        MovingKeepsChannels(s.streams, s.hub, i, t.streams[i]);
      }
    case ClientLeaves(i) => MovingKeepsChannels(s.streams, s.hub, i, t.streams[i]);
    case Uncount(i) => MovingKeepsChannels(s.streams, s.hub, i, t.streams[i]);
    case _ =>
  }

  lemma BufferStays(buffer: seq<Event>, j: JobId, s: System, step: Step)
    requires Enabled(s, step) && BufferValid(buffer, j, s.jobs)
    ensures BufferValid(buffer, j, Apply(s, step).jobs)
  {
    if JobAnnounced(s.jobs, j) {
      AnnouncedStays(s, step, j);
    }
  }

  lemma JobsChangeKeepsHub(s: System, step: Step)
    requires HubValid(s.hub, s.jobs) && Enabled(s, step)
    ensures HubValid(s.hub, Apply(s, step).jobs)
  {
    var jobs := Apply(s, step).jobs;
    forall j | j in s.hub.subscribers ensures SubsValid(s.hub.subscribers[j], j, jobs, s.hub.nextSub, s.hub.closed) {
      var subs := s.hub.subscribers[j];
      assert SubsValid(subs, j, s.jobs, s.hub.nextSub, s.hub.closed);
      forall id | id in subs ensures BufferValid(subs[id], j, jobs) {
        BufferStays(subs[id], j, s, step);
      }
    }
  }

  lemma PublishKeepsHub(hub: Hub, jobs: map<JobId, Job>, ev: Event)
    requires HubValid(hub, jobs)
    requires IsTerminal(ev.status) ==> JobAnnounced(jobs, ev.job) && jobs[ev.job].outcome == Some(ev.status)
    ensures HubValid(Publish(hub, ev), jobs)
  {
    var subs := SubscribersOf(hub.subscribers, ev.job);
    if ev.job in hub.subscribers {
      assert SubsValid(subs, ev.job, jobs, hub.nextSub, hub.closed);
      var offered := OfferAll(subs, ev);
      forall id | id in offered
        ensures id < hub.nextSub && id !in hub.closed && BufferValid(offered[id], ev.job, jobs)
      {
        assert BufferValid(subs[id], ev.job, jobs);
      }
      assert SubsValid(offered, ev.job, jobs, hub.nextSub, hub.closed);
    }
  }

  lemma SubscribeKeepsHub(hub: Hub, jobs: map<JobId, Job>, j: JobId)
    requires HubValid(hub, jobs)
    ensures HubValid(Subscribe(hub, j), jobs)
  {
    var hub' := Subscribe(hub, j);
    forall k | k in hub'.subscribers ensures SubsValid(hub'.subscribers[k], k, jobs, hub'.nextSub, hub'.closed) {
      if k in hub.subscribers {
        assert SubsValid(hub.subscribers[k], k, jobs, hub.nextSub, hub.closed);
      }
    }
  }

  /** The subscriber's channel is open when it is closed, and no other job holds it. */
  lemma UnsubscribeKeepsHub(hub: Hub, jobs: map<JobId, Job>, j: JobId, id: SubId)
    requires HubValid(hub, jobs) && j in hub.subscribers && id in hub.subscribers[j]
    ensures HubValid(Unsubscribe(hub, j, id), jobs)
  {
    var hub' := Unsubscribe(hub, j, id);
    assert j in hub.subscribers ==> SubsValid(hub.subscribers[j], j, jobs, hub.nextSub, hub.closed);
    forall k | k in hub'.subscribers ensures SubsValid(hub'.subscribers[k], k, jobs, hub'.nextSub, hub'.closed) {
      assert SubsValid(hub.subscribers[k], k, jobs, hub.nextSub, hub.closed);
    }
  }

  lemma TakingKeepsHub(s: System, i: nat)
    requires HubValid(s.hub, s.jobs) && Enabled(s, TakeEvent(i))
    ensures HubValid(AfterTake(s, i).hub, s.jobs)
  {
    var j, id := s.streams[i].job, s.streams[i].sub;
    assert SubsValid(s.hub.subscribers[j], j, s.jobs, s.hub.nextSub, s.hub.closed);
    assert BufferValid(s.hub.subscribers[j][id], j, s.jobs);
    var hub' := AfterTake(s, i).hub;
    assert SubsValid(hub'.subscribers[j], j, s.jobs, hub'.nextSub, hub'.closed);
  }

  lemma HubKeeps(s: System, step: Step)
    requires HubValid(s.hub, s.jobs) && JobsValid(s.jobs) && ChannelsValid(s.streams, s.hub) && Enabled(s, step)
    ensures HubValid(Apply(s, step).hub, Apply(s, step).jobs)
  {
    var t := Apply(s, step);
    JobsChangeKeepsHub(s, step);
    match step
    case AnnounceRunning(j) => PublishKeepsHub(s.hub, t.jobs, Event(j, NoKind, Running));
    case AnnounceProgress(j) => PublishKeepsHub(s.hub, t.jobs, Event(j, ProgressKind, NoStatus));
    case AnnounceFinal(j) => PublishKeepsHub(s.hub, t.jobs, Event(j, StatusKind, s.jobs[j].execution.status));
    case Open(j, _, _) => SubscribeKeepsHub(s.hub, t.jobs, j);
    case LeaveHub(i) =>
      assert ChannelValid(s.streams[i], s.hub);
      UnsubscribeKeepsHub(s.hub, t.jobs, s.streams[i].job, s.streams[i].sub);
    case TakeEvent(i) => TakingKeepsHub(s, i);
    case _ =>
  }

  // ----- Counting watchers -----

  lemma {:induction false} NobodyWatches(streams: seq<Stream>, j: JobId)
    requires forall i :: 0 <= i < |streams| && streams[i].counts ==> streams[i].job != j
    ensures Sum(streams, Watches(j)) == 0
  {
    if streams != [] {
      NobodyWatches(streams[..|streams| - 1], j);
    }
  }

  lemma MovingKeepsWatchers(jobs: map<JobId, Job>, streams: seq<Stream>, i: nat, t: Stream)
    requires WatchersValid(jobs, streams) && i < |streams| && t.job == streams[i].job && t.counts == streams[i].counts
    requires forall j :: Watches(j)(t) == Watches(j)(streams[i])
    ensures WatchersValid(jobs, streams[i := t])
  {
    forall j | j in jobs ensures jobs[j].watchers == Sum(streams[i := t], Watches(j)) {
      SumUpdate(streams, i, t, Watches(j));
    }
  }

  lemma CountingKeepsWatchers(s: System, i: nat, t: Stream, delta: int)
    requires WatchersValid(s.jobs, s.streams) && i < |s.streams| && t.job == s.streams[i].job
    requires t.counts == s.streams[i].counts
    requires forall j :: Watches(j)(t) == Watches(j)(s.streams[i]) + if t.counts && j == t.job then delta else 0
    ensures WatchersValid(WithWatchers(s, i, delta), s.streams[i := t])
  {
    var jobs := WithWatchers(s, i, delta);
    forall j | j in jobs ensures jobs[j].watchers == Sum(s.streams[i := t], Watches(j)) {
      SumUpdate(s.streams, i, t, Watches(j));
    }
  }

  lemma OpeningKeepsWatchers(jobs: map<JobId, Job>, streams: seq<Stream>, t: Stream)
    requires WatchersValid(jobs, streams) && t.position == Registered && (t.counts ==> t.job in jobs)
    ensures WatchersValid(jobs, streams + [t])
  {
    forall j | j in jobs ensures jobs[j].watchers == Sum(streams + [t], Watches(j)) {
      SumAppend(streams, t, Watches(j));
    }
  }

  predicate SameWatchers(jobs: map<JobId, Job>, jobs': map<JobId, Job>) {
    jobs'.Keys == jobs.Keys && forall j :: j in jobs ==> jobs'[j].watchers == jobs[j].watchers
  }

  lemma SameWatchersKeep(jobs: map<JobId, Job>, jobs': map<JobId, Job>, streams: seq<Stream>)
    requires WatchersValid(jobs, streams) && SameWatchers(jobs, jobs')
    ensures WatchersValid(jobs', streams)
  {
    forall j | j in jobs' ensures jobs'[j].watchers == Sum(streams, Watches(j)) {
      assert j in jobs;
    }
  }

  lemma SubmitKeepsWatchers(jobs: map<JobId, Job>, streams: seq<Stream>, j: JobId, job: Job)
    requires WatchersValid(jobs, streams) && j !in jobs && job.watchers == 0
    ensures WatchersValid(jobs[j := job], streams)
  {
    NobodyWatches(streams, j);
  }

  lemma OtherJobsSameWatchers(s: System, step: Step)
    requires Enabled(s, step) && !step.Submit? && !step.Count? && !step.Uncount?
    ensures SameWatchers(s.jobs, Apply(s, step).jobs)
  {
  }

  lemma JobsChangeKeepsWatchers(s: System, step: Step)
    requires WatchersValid(s.jobs, s.streams) && Enabled(s, step)
    requires !step.Count? && !step.Uncount?
    ensures WatchersValid(Apply(s, step).jobs, s.streams)
  {
    if step.Submit? {
      SubmitKeepsWatchers(s.jobs, s.streams, step.j, Job(Pending, Queued, None, 0, true));
    } else {
      OtherJobsSameWatchers(s, step);
      SameWatchersKeep(s.jobs, Apply(s, step).jobs, s.streams);
    }
  }

  predicate IsStreamMove(step: Step, i: nat) {
    step == WriteCurrent(i) || step == TakeEvent(i) || step == KeepAlive(i) || step == ClientLeaves(i)
    || step == LeaveHub(i)
  }

  lemma StreamMoveKeepsWatchers(s: System, step: Step, i: nat)
    requires WatchersValid(s.jobs, s.streams) && Enabled(s, step) && IsStreamMove(step, i)
    ensures WatchersValid(s.jobs, Apply(s, step).streams)
  {
    var t := Apply(s, step).streams;
    if t != s.streams {
      assert t == s.streams[i := t[i]];
      MovingKeepsWatchers(s.jobs, s.streams, i, t[i]);
    }
  }

  lemma WatchersKeep(s: System, step: Step)
    requires WatchersValid(s.jobs, s.streams) && Enabled(s, step)
    ensures WatchersValid(Apply(s, step).jobs, Apply(s, step).streams)
  {
    match step
    case Count(i) => CountingKeepsWatchers(s, i, Apply(s, step).streams[i], 1);
    case Uncount(i) => CountingKeepsWatchers(s, i, Apply(s, step).streams[i], -1);
    case Open(j, fallback, found) =>
      OpeningKeepsWatchers(s.jobs, s.streams, Stream(j, s.hub.nextSub, found, fallback, Registered, false, []));
    case WriteCurrent(i) => StreamMoveKeepsWatchers(s, step, i);
    case TakeEvent(i) => StreamMoveKeepsWatchers(s, step, i);
    case KeepAlive(i) => StreamMoveKeepsWatchers(s, step, i);
    case ClientLeaves(i) => StreamMoveKeepsWatchers(s, step, i);
    case LeaveHub(i) => StreamMoveKeepsWatchers(s, step, i);
    case _ => JobsChangeKeepsWatchers(s, step);
  }

  // ----- What streams report -----

  /** A report stays right whatever happens to the job. */
  lemma ReportStays(s: System, step: Step, j: JobId, status: Status)
    requires JobsValid(s.jobs) && Enabled(s, step) && j in s.jobs && IsReport(s.jobs[j], status)
    ensures j in Apply(s, step).jobs && IsReport(Apply(s, step).jobs[j], status)
  {
    assert JobValid(s.jobs[j]);
  }

  /** What the streams had reported before a step stays right. */
  lemma OldReportsKeep(s: System, step: Step)
    requires JobsValid(s.jobs) && ReportsValid(s.streams, s.jobs) && Enabled(s, step)
    ensures ReportsValid(s.streams, Apply(s, step).jobs)
  {
    forall i | 0 <= i < |s.streams| ensures ReportsRight(s.streams[i], Apply(s, step).jobs) {
      var t := s.streams[i];
      assert ReportsRight(t, s.jobs);
      if t.written != [] && t.job in s.jobs && IsReport(s.jobs[t.job], t.written[|t.written| - 1].status) {
        ReportStays(s, step, t.job, t.written[|t.written| - 1].status);
      }
    }
  }

  /** A terminal event that is the job's report may end a stream. */
  lemma WritingReportKeeps(streams: seq<Stream>, jobs: map<JobId, Job>, i: nat, ev: Event)
    requires ReportsValid(streams, jobs) && i < |streams| && !streams[i].cancelled
    requires IsTerminal(ev.status) ==> streams[i].job in jobs && IsReport(jobs[streams[i].job], ev.status)
    ensures ReportsValid(WithWritten(streams, i, ev), jobs)
  {
    var written := WithWritten(streams, i, ev);
    forall k | 0 <= k < |written| ensures ReportsRight(written[k], jobs) {
      assert ReportsRight(streams[k], jobs);
      if k == i {
        assert written[i].written[|written[i].written| - 1] == Shown(ev);
      }
    }
  }

  /** The first event of a stream, when the job is not in memory. */
  lemma WritingFallbackKeeps(streams: seq<Stream>, jobs: map<JobId, Job>, i: nat)
    requires ReportsValid(streams, jobs) && i < |streams| && streams[i].written == []
    ensures ReportsValid(WithWritten(streams, i, Event(streams[i].job, StatusKind, streams[i].fallback)), jobs)
  {
    var written := WithWritten(streams, i, Event(streams[i].job, StatusKind, streams[i].fallback));
    forall k | 0 <= k < |written| ensures ReportsRight(written[k], jobs) {
      assert ReportsRight(streams[k], jobs);
    }
  }

  /** A stream moves on without writing. */
  lemma MovingKeepsReports(streams: seq<Stream>, jobs: map<JobId, Job>, i: nat, t: Stream)
    requires ReportsValid(streams, jobs) && i < |streams|
    requires t.job == streams[i].job && t.written == streams[i].written && t.fallback == streams[i].fallback
    requires Ended(t) && !t.cancelled ==> Ended(streams[i]) && !streams[i].cancelled
    ensures ReportsValid(streams[i := t], jobs)
  {
    assert ReportsRight(streams[i], jobs);
  }

  lemma TakingReports(s: System, i: nat)
    requires HubValid(s.hub, s.jobs) && Enabled(s, TakeEvent(i)) && IsTerminal(BufferOf(s, i)[0].status)
    ensures s.streams[i].job in s.jobs && IsReport(s.jobs[s.streams[i].job], BufferOf(s, i)[0].status)
  {
    var j := s.streams[i].job;
    assert SubsValid(s.hub.subscribers[j], j, s.jobs, s.hub.nextSub, s.hub.closed);
    assert BufferValid(BufferOf(s, i), j, s.jobs);
  }

  lemma WritersKeepReports(s: System, step: Step)
    requires JobsValid(s.jobs) && StreamsValid(s.streams) && HubValid(s.hub, s.jobs) && ReportsValid(s.streams, s.jobs)
    requires Enabled(s, step) && (step.WriteCurrent? || step.TakeEvent? || step.KeepAlive?)
    ensures ReportsValid(Apply(s, step).streams, s.jobs)
  {
    var i := step.i;
    var j := s.streams[i].job;
    assert StreamValid(s.streams[i]);
    match step
    case WriteCurrent(_) =>
      if InMemory(s, j) {
        assert JobValid(s.jobs[j]);
        WritingReportKeeps(s.streams, s.jobs, i, Event(j, StatusKind, s.jobs[j].status));
      } else {
        WritingFallbackKeeps(s.streams, s.jobs, i);
      }
    case TakeEvent(_) =>
      if IsTerminal(BufferOf(s, i)[0].status) {
        TakingReports(s, i);
      }
      WritingReportKeeps(s.streams, s.jobs, i, BufferOf(s, i)[0]);
    case KeepAlive(_) =>
      if InMemory(s, j) && IsTerminal(s.jobs[j].status) {
        assert JobValid(s.jobs[j]);
        WritingReportKeeps(s.streams, s.jobs, i, Event(j, StatusKind, s.jobs[j].status));
      }
  }

  lemma ReportsKeep(s: System, step: Step)
    requires JobsValid(s.jobs) && StreamsValid(s.streams) && HubValid(s.hub, s.jobs) && ReportsValid(s.streams, s.jobs)
    requires Enabled(s, step)
    ensures ReportsValid(Apply(s, step).streams, Apply(s, step).jobs)
  {
    var t := Apply(s, step);
    OldReportsKeep(s, step);
    match step
    case WriteCurrent(_) => WritersKeepReports(s, step);
    case TakeEvent(_) => WritersKeepReports(s, step);
    case KeepAlive(_) => WritersKeepReports(s, step);
    case Count(i) => MovingKeepsReports(s.streams, t.jobs, i, t.streams[i]);
    case ClientLeaves(i) => MovingKeepsReports(s.streams, t.jobs, i, t.streams[i]);
    case LeaveHub(i) => MovingKeepsReports(s.streams, t.jobs, i, t.streams[i]);
    case Uncount(i) => MovingKeepsReports(s.streams, t.jobs, i, t.streams[i]);
    case _ =>
  }

  lemma {:induction false} RunKeepsInvariant(steps: seq<Step>)
    requires Run(steps).Some?
    ensures Invariant(Run(steps).value)
  {
    if steps != [] {
      var before := steps[..|steps| - 1];
      var step := steps[|steps| - 1];
      RunKeepsInvariant(before);
      var s := Run(before).value;
      JobsKeep(s, step);
      StreamsKeep(s, step);
      ChannelsKeep(s, step);
      HubKeeps(s, step);
      WatchersKeep(s, step);
      ReportsKeep(s, step);
    }
  }

  // ----- Theorems -----

  /** No send and no close ever meets a closed channel, and the channel of a stream that
      has not left is open and registered. */
  lemma ChannelsAreSafe(steps: seq<Step>, i: nat)
    requires Run(steps).Some?
    ensures !Run(steps).value.hub.panicked
    ensures var s := Run(steps).value;
      i < |s.streams| && HasChannel(s.streams[i]) ==>
        && s.streams[i].job in s.hub.subscribers && s.streams[i].sub in s.hub.subscribers[s.streams[i].job]
        && s.streams[i].sub !in s.hub.closed
  {
    RunKeepsInvariant(steps);
    var s := Run(steps).value;
    if i < |s.streams| {
      assert ChannelValid(s.streams[i], s.hub);
    }
  }

  /** A stream whose client stays writes exactly one terminal event, as its last; one
      whose client left, or that still goes on, has written none. */
  lemma TerminalEventIsLast(steps: seq<Step>, i: nat)
    requires Run(steps).Some? && i < |Run(steps).value.streams|
    ensures var t := Run(steps).value.streams[i];
      && (Ended(t) && !t.cancelled ==> OnlyLastTerminal(t.written))
      && (!Ended(t) || t.cancelled ==> NoneTerminal(t.written))
  {
    RunKeepsInvariant(steps);
    assert StreamValid(Run(steps).value.streams[i]);
  }

  /** Which status ends a stream whose client stays: the outcome its job arrived at;
      `Cancelled` for a failed job only once the failure had been announced and a
      cancellation relabelled it; or the fallback, as the only event, if the job was not
      in memory when the stream began. */
  lemma TerminalEventIsTheOutcome(steps: seq<Step>, i: nat)
    requires Run(steps).Some? && i < |Run(steps).value.streams|
    ensures var s := Run(steps).value; var t := s.streams[i];
      Ended(t) && !t.cancelled ==>
        || t.written == [Event(t.job, StatusKind, t.fallback)]
        || (&& t.written != [] && t.job in s.jobs && s.jobs[t.job].outcome.Some?
            && var last := t.written[|t.written| - 1].status;
               || last == s.jobs[t.job].outcome.value
               || (last == Cancelled && s.jobs[t.job].outcome.value == Failed && s.jobs[t.job].execution == Announced))
  {
    RunKeepsInvariant(steps);
    var s := Run(steps).value;
    assert StreamValid(s.streams[i]) && ReportsRight(s.streams[i], s.jobs);
  }

  /** A job has a terminal status exactly when its outcome is set, from then on for good:
      no later step makes it run again or changes the outcome. */
  lemma OutcomeIsForGood(steps: seq<Step>, step: Step, j: JobId)
    requires Run(steps).Some? && Enabled(Run(steps).value, step) && j in Run(steps).value.jobs
    ensures var job := Run(steps).value.jobs[j]; IsTerminal(job.status) <==> job.outcome.Some?
    ensures var s := Run(steps).value; var s' := Apply(s, step);
      j in s'.jobs && (s.jobs[j].outcome.Some? ==>
        s'.jobs[j].outcome == s.jobs[j].outcome && IsTerminal(s'.jobs[j].status))
  {
    RunKeepsInvariant(steps);
    var s := Run(steps).value;
    JobsKeep(s, step);
    assert JobValid(s.jobs[j]) && JobValid(Apply(s, step).jobs[j]);
  }

  /** After its end a stream writes nothing more. */
  lemma NothingAfterTheEnd(s: System, step: Step, i: nat)
    requires Enabled(s, step) && i < |s.streams| && Ended(s.streams[i])
    ensures var t := Apply(s, step).streams;
      i < |t| && Ended(t[i]) && t[i].written == s.streams[i].written && t[i].cancelled == s.streams[i].cancelled
  {
  }

  /** The stream found its job in memory and is counted among its watchers. */
  predicate IsCounted(t: Stream) {
    t.counts && t.position != Registered && t.position != Gone
  }

  lemma CountedIsWatched(s: System, i: nat)
    requires WatchersValid(s.jobs, s.streams) && i < |s.streams| && IsCounted(s.streams[i])
    ensures s.streams[i].job in s.jobs && s.jobs[s.streams[i].job].watchers >= 1
  {
    var j := s.streams[i].job;
    SumBoundsTerm(s.streams, Watches(j));
    assert Watches(j)(s.streams[i]) == 1;
  }

  /** A job that a stream is counted for stays in memory. */
  lemma WatchedJobStaysInMemory(steps: seq<Step>, step: Step, i: nat)
    requires Run(steps).Some? && Enabled(Run(steps).value, step)
    requires var s := Run(steps).value;
      i < |s.streams| && IsCounted(s.streams[i]) && InMemory(s, s.streams[i].job)
    ensures var s := Run(steps).value;
      InMemory(Apply(s, step), s.streams[i].job)
  {
    var s := Run(steps).value;
    RunKeepsWatchers(steps);
    CountedIsWatched(s, i);
    WatchedStays(s, step, s.streams[i].job);
  }

  lemma RunKeepsWatchers(steps: seq<Step>)
    requires Run(steps).Some?
    ensures WatchersValid(Run(steps).value.jobs, Run(steps).value.streams)
  {
    RunKeepsInvariant(steps);
  }

  lemma WatchedStays(s: System, step: Step, j: JobId)
    requires Enabled(s, step) && InMemory(s, j) && s.jobs[j].watchers >= 1
    ensures InMemory(Apply(s, step), j)
  {
  }

  // ----- What the hub delivers -----

  predicate Listens(h: Hub, j: JobId, id: SubId) {
    j in h.subscribers && id in h.subscribers[j]
  }

  /** Publishing puts the event behind what waits for each subscriber of its job with fewer
      than eight events waiting, loses it for the others, and touches nobody else. */
  lemma PublishDelivers(h: Hub, ev: Event, j: JobId, id: SubId)
    ensures Listens(Publish(h, ev), j, id) <==> Listens(h, j, id)
    ensures Listens(h, j, id) ==>
      var was := h.subscribers[j][id];
      Publish(h, ev).subscribers[j][id] == if j == ev.job && |was| < 8 then was + [ev] else was
    ensures Publish(h, ev).closed == h.closed && Publish(h, ev).nextSub == h.nextSub
  {
  }

  /** Subscribing adds one subscriber, under a number never used, with nothing waiting. */
  lemma SubscribeAddsOne(h: Hub, j: JobId, k: JobId, id: SubId)
    ensures Listens(Subscribe(h, j), k, id) <==> Listens(h, k, id) || (k == j && id == h.nextSub)
    ensures Listens(Subscribe(h, j), j, h.nextSub) && Subscribe(h, j).subscribers[j][h.nextSub] == []
    ensures Listens(h, k, id) && (k != j || id != h.nextSub) ==>
      Subscribe(h, j).subscribers[k][id] == h.subscribers[k][id]
    ensures Subscribe(h, j).nextSub == h.nextSub + 1 && Subscribe(h, j).closed == h.closed
  {
  }

  /** Unsubscribing takes one subscriber away and closes its channel, if it was there; the
      job's entry goes with its last subscriber. */
  lemma UnsubscribeTakesOne(h: Hub, j: JobId, gone: SubId, k: JobId, id: SubId)
    ensures Listens(Unsubscribe(h, j, gone), k, id) <==> Listens(h, k, id) && (k != j || id != gone)
    ensures Listens(Unsubscribe(h, j, gone), k, id) ==>
      Unsubscribe(h, j, gone).subscribers[k][id] == h.subscribers[k][id]
    ensures Unsubscribe(h, j, gone).closed == if Listens(h, j, gone) then h.closed + {gone} else h.closed
    ensures Listens(h, j, gone) && j in Unsubscribe(h, j, gone).subscribers ==>
      Unsubscribe(h, j, gone).subscribers[j] != map[]
  {
    var left := SubscribersOf(h.subscribers, j) - {gone};
    assert Listens(h, j, id) && id != gone ==> id in left;
  }

  /** What a step adds to a subscriber of job `j`: the start of the job, its progress while a
      stream of it is counted, and its outcome. */
  function SentBy(s: System, step: Step, j: JobId): seq<Event> {
    match step
    case AnnounceRunning(k) => if k == j then [Event(j, NoKind, Running)] else []
    case AnnounceProgress(k) =>
      if k == j && k in s.jobs && s.jobs[k].watchers != 0 then [Event(j, ProgressKind, NoStatus)] else []
    case AnnounceFinal(k) =>
      if k == j && k in s.jobs && s.jobs[k].outcome.Some? then [Event(j, StatusKind, s.jobs[k].outcome.value)] else []
    case _ => []
  }

  /** A step takes the first event of a subscriber, or adds one behind the others while
      there is room for it, or leaves the subscriber alone. */
  lemma BuffersChange(s: System, step: Step, j: JobId, id: SubId)
    requires JobsValid(s.jobs) && Enabled(s, step)
    requires Listens(s.hub, j, id) && id < s.hub.nextSub && Listens(Apply(s, step).hub, j, id)
    ensures var was, now := s.hub.subscribers[j][id], Apply(s, step).hub.subscribers[j][id];
      now == if step.TakeEvent? && s.streams[step.i].job == j && s.streams[step.i].sub == id && was != [] then was[1..]
             else if |was| < 8 then was + SentBy(s, step, j)
             else was
  {
    match step
    case AnnounceRunning(k) => PublishDelivers(s.hub, Event(k, NoKind, Running), j, id);
    case AnnounceProgress(k) => PublishDelivers(s.hub, Event(k, ProgressKind, NoStatus), j, id);
    case AnnounceFinal(k) =>
      assert JobValid(s.jobs[k]);
      PublishDelivers(s.hub, Event(k, StatusKind, s.jobs[k].execution.status), j, id);
    case Open(k, _, _) => SubscribeAddsOne(s.hub, k, j, id);
    case LeaveHub(i) => UnsubscribeTakesOne(s.hub, s.streams[i].job, s.streams[i].sub, j, id);
    case _ =>
  }

  /** A client that goes away ends its stream at what is written; a stream that ended leaves
      the hub, and its channel is closed. */
  lemma LeavingEndsStream(s: System, i: nat)
    requires ChannelsValid(s.streams, s.hub) && i < |s.streams|
    ensures Enabled(s, ClientLeaves(i)) ==>
      var t := Apply(s, ClientLeaves(i)).streams[i];
      Ended(t) && t.cancelled && t.written == s.streams[i].written
    ensures Enabled(s, LeaveHub(i)) ==>
      var t := Apply(s, LeaveHub(i));
      && !Listens(t.hub, s.streams[i].job, s.streams[i].sub) && s.streams[i].sub in t.hub.closed
      && Ended(t.streams[i]) && t.streams[i].written == s.streams[i].written
  {
    UnsubscribeTakesOne(s.hub, s.streams[i].job, s.streams[i].sub, s.streams[i].job, s.streams[i].sub);
    assert ChannelValid(s.streams[i], s.hub);
  }

  /** Before its outcome a job is pending while it waits, and running afterwards. */
  lemma {:induction false} StatusBeforeTheOutcome(steps: seq<Step>, j: JobId)
    requires Run(steps).Some? && j in Run(steps).value.jobs
    ensures var job := Run(steps).value.jobs[j];
      && (job.execution == Queued ==> job.status == Pending)
      && (job.execution == RunningSet || job.execution == Executing ==> job.status == Running)
  {
    var before := steps[..|steps| - 1];
    var s := Run(before).value;
    if j in s.jobs {
      StatusBeforeTheOutcome(before, j);
    }
    StepKeepsEarlyStatus(s, steps[|steps| - 1], j);
  }

  lemma StepKeepsEarlyStatus(s: System, step: Step, j: JobId)
    requires Enabled(s, step) && j in Apply(s, step).jobs
    requires j in s.jobs ==>
      && (s.jobs[j].execution == Queued ==> s.jobs[j].status == Pending)
      && (s.jobs[j].execution == RunningSet || s.jobs[j].execution == Executing ==> s.jobs[j].status == Running)
    ensures var job := Apply(s, step).jobs[j];
      && (job.execution == Queued ==> job.status == Pending)
      && (job.execution == RunningSet || job.execution == Executing ==> job.status == Running)
  {
  }

  /** Every event a stream writes is of its own job, and a status or progress event. */
  predicate WritesOwn(t: Stream) {
    forall k :: 0 <= k < |t.written| ==>
      t.written[k].job == t.job && (t.written[k].kind == StatusKind || t.written[k].kind == ProgressKind)
  }

  lemma StepWritesOwn(s: System, step: Step, i: nat)
    requires HubValid(s.hub, s.jobs) && Enabled(s, step) && i < |Apply(s, step).streams|
    requires i < |s.streams| ==> WritesOwn(s.streams[i])
    ensures WritesOwn(Apply(s, step).streams[i])
  {
    if step == TakeEvent(i) {
      var j := s.streams[i].job;
      assert SubsValid(s.hub.subscribers[j], j, s.jobs, s.hub.nextSub, s.hub.closed);
      assert BufferValid(BufferOf(s, i), j, s.jobs);
    }
  }

  lemma {:induction false} StreamsWriteTheirOwn(steps: seq<Step>, i: nat)
    requires Run(steps).Some? && i < |Run(steps).value.streams|
    ensures WritesOwn(Run(steps).value.streams[i])
  {
    var before := steps[..|steps| - 1];
    var s := Run(before).value;
    RunKeepsInvariant(before);
    if i < |s.streams| {
      StreamsWriteTheirOwn(before, i);
    }
    StepWritesOwn(s, steps[|steps| - 1], i);
  }

  // ----- The end is reached -----

  /** How many more turns a stream can take once its job's outcome is set: reports of
      the current status, events and ticks. */
  function TurnsLeft(s: System, i: nat): nat
    requires i < |s.streams|
  {
    if Ended(s.streams[i]) then 0
    else |BufferOf(s, i)| + 1 + (if JobAnnounced(s.jobs, s.streams[i].job) then 0 else 1)
  }

  predicate IsTurn(step: Step, i: nat) {
    step == WriteCurrent(i) || step == TakeEvent(i) || step == KeepAlive(i)
  }

  /** The stream is counted for a job in memory whose outcome is set, or has ended. */
  predicate Following(s: System, i: nat) {
    && i < |s.streams| && s.streams[i].counts && s.streams[i].position != Registered
    && (!Ended(s.streams[i]) ==> InMemory(s, s.streams[i].job) && IsFinal(s.jobs[s.streams[i].job].execution))
  }

  lemma PublishGrows(h: Hub, ev: Event, j: JobId, id: SubId)
    ensures var was, now := BufferIn(h.subscribers, j, id), BufferIn(Publish(h, ev).subscribers, j, id);
      |now| <= |was| + 1 && (ev.job != j ==> now == was)
  {
  }

  lemma UnsubscribeSpares(h: Hub, k: JobId, other: SubId, j: JobId, id: SubId)
    requires id != other
    ensures BufferIn(Unsubscribe(h, k, other).subscribers, j, id) == BufferIn(h.subscribers, j, id)
  {
  }

  lemma SubscribeSpares(h: Hub, k: JobId, j: JobId, id: SubId)
    requires id != h.nextSub
    ensures BufferIn(Subscribe(h, k).subscribers, j, id) == BufferIn(h.subscribers, j, id)
  {
  }

  lemma TakingSpares(s: System, k: nat, i: nat)
    requires Enabled(s, TakeEvent(k)) && i < |s.streams| && s.streams[i].sub != s.streams[k].sub
    ensures BufferIn(AfterTake(s, k).hub.subscribers, s.streams[i].job, s.streams[i].sub) == BufferOf(s, i)
  {
  }

  lemma TakingShrinks(s: System, i: nat)
    requires Enabled(s, TakeEvent(i))
    ensures BufferIn(AfterTake(s, i).hub.subscribers, s.streams[i].job, s.streams[i].sub) == BufferOf(s, i)[1..]
  {
  }

  /** How a step changes the buffer of a stream whose job's outcome is set. */
  lemma BufferChange(s: System, step: Step, i: nat)
    requires Enabled(s, step) && ChannelsValid(s.streams, s.hub) && i < |s.streams|
    requires s.streams[i].job in s.jobs && IsFinal(s.jobs[s.streams[i].job].execution)
    ensures var was := BufferOf(s, i);
      var now := BufferIn(Apply(s, step).hub.subscribers, s.streams[i].job, s.streams[i].sub);
      if step == TakeEvent(i) then now == was[1..]
      else if step == AnnounceFinal(s.streams[i].job) then |now| <= |was| + 1
      else step != LeaveHub(i) ==> now == was
  {
    var j, id := s.streams[i].job, s.streams[i].sub;
    assert ChannelValid(s.streams[i], s.hub);
    match step
    case AnnounceRunning(k) => PublishGrows(s.hub, Event(k, NoKind, Running), j, id);
    case AnnounceProgress(k) => PublishGrows(s.hub, Event(k, ProgressKind, NoStatus), j, id);
    case AnnounceFinal(k) => PublishGrows(s.hub, Event(k, StatusKind, s.jobs[k].execution.status), j, id);
    case Open(k, _, _) => SubscribeSpares(s.hub, k, j, id);
    case LeaveHub(k) =>
      if k != i {
        UnsubscribeSpares(s.hub, s.streams[k].job, s.streams[k].sub, j, id);
      }
    case TakeEvent(k) =>
      if k == i {
        TakingShrinks(s, i);
      } else {
        TakingSpares(s, k, i);
      }
    case _ =>
  }

  lemma StreamMoves(s: System, step: Step, i: nat)
    requires Enabled(s, step) && i < |s.streams|
    ensures var t := Apply(s, step);
      i < |t.streams| && t.streams[i].job == s.streams[i].job && t.streams[i].sub == s.streams[i].sub
  {
  }

  /** The first report of a finished job ends the stream. */
  lemma WriteCurrentEnds(s: System, i: nat)
    requires JobsValid(s.jobs) && Following(s, i) && Enabled(s, WriteCurrent(i))
    ensures Ended(Apply(s, WriteCurrent(i)).streams[i])
  {
    assert JobValid(s.jobs[s.streams[i].job]);
  }

  /** A tick on a finished job ends the stream. */
  lemma KeepAliveEnds(s: System, i: nat)
    requires JobsValid(s.jobs) && Following(s, i) && Enabled(s, KeepAlive(i))
    ensures Ended(Apply(s, KeepAlive(i)).streams[i])
  {
    assert JobValid(s.jobs[s.streams[i].job]);
  }

  lemma FollowingStays(s: System, step: Step, i: nat)
    requires Following(s, i) && Enabled(s, step)
    requires !Ended(s.streams[i]) ==> s.streams[i].job in s.jobs && s.jobs[s.streams[i].job].watchers >= 1
    ensures Following(Apply(s, step), i)
  {
  }

  /** No step gives a stream more turns, and each turn it takes uses one up. */
  lemma TurnsRunOut(s: System, step: Step, i: nat)
    requires JobsValid(s.jobs) && ChannelsValid(s.streams, s.hub) && Following(s, i) && Enabled(s, step)
    ensures i < |Apply(s, step).streams|
    ensures TurnsLeft(Apply(s, step), i) <= TurnsLeft(s, i) - if IsTurn(step, i) then 1 else 0
  {
    var j := s.streams[i].job;
    StreamMoves(s, step, i);
    if Ended(s.streams[i]) {
      NothingAfterTheEnd(s, step, i);
    } else {
      BufferChange(s, step, i);
      if JobAnnounced(s.jobs, j) {
        AnnouncedStays(s, step, j);
      }
      if step == KeepAlive(i) {
        KeepAliveEnds(s, i);
      }
      if step == WriteCurrent(i) {
        WriteCurrentEnds(s, i);
      }
    }
  }

  function Turns(steps: seq<Step>, i: nat): nat {
    if steps == [] then 0 else Turns(steps[..|steps| - 1], i) + if IsTurn(steps[|steps| - 1], i) then 1 else 0
  }

  lemma {:induction false} TurnsAreCounted(steps: seq<Step>, more: seq<Step>, i: nat)
    requires Run(steps).Some? && Following(Run(steps).value, i) && Run(steps + more).Some?
    ensures Following(Run(steps + more).value, i)
    ensures TurnsLeft(Run(steps + more).value, i) + Turns(more, i) <= TurnsLeft(Run(steps).value, i)
  {
    if more == [] {
      assert steps + more == steps;
    } else {
      var n := |more| - 1;
      assert (steps + more)[..|steps + more| - 1] == steps + more[..n];
      TurnsAreCounted(steps, more[..n], i);
      RunKeepsInvariant(steps + more[..n]);
      if !Ended(Run(steps + more[..n]).value.streams[i]) {
        CountedIsWatched(Run(steps + more[..n]).value, i);
      }
      FollowingStays(Run(steps + more[..n]).value, more[n], i);
      TurnsRunOut(Run(steps + more[..n]).value, more[n], i);
    }
  }

  /** Once a job's outcome is set, a stream that was counted while the job was in memory
      ends within ten turns, whatever else happens in between and whatever events its
      buffer lost. */
  lemma StreamEndsInTime(steps: seq<Step>, more: seq<Step>, i: nat)
    requires Run(steps).Some? && Following(Run(steps).value, i) && Run(steps + more).Some?
    ensures Turns(more, i) <= CAPACITY + 2
    ensures i < |Run(steps + more).value.streams|
    ensures Turns(more, i) == CAPACITY + 2 ==> Ended(Run(steps + more).value.streams[i])
  {
    RunKeepsInvariant(steps);
    var s := Run(steps).value;
    var t := s.streams[i];
    assert ChannelValid(t, s.hub);
    if !Ended(t) {
      assert SubsValid(s.hub.subscribers[t.job], t.job, s.jobs, s.hub.nextSub, s.hub.closed);
      assert BufferValid(BufferOf(s, i), t.job, s.jobs);
    }
    TurnsAreCounted(steps, more, i);
  }

  /** It can always take its next turn, and the report of the current status, or a tick,
      ends it at once with the job's terminal status. */
  lemma NeverStuck(steps: seq<Step>, i: nat)
    requires Run(steps).Some? && Following(Run(steps).value, i) && !Ended(Run(steps).value.streams[i])
    ensures var s := Run(steps).value;
      var turn := if s.streams[i].position == Counted then WriteCurrent(i) else KeepAlive(i);
      && Enabled(s, turn)
      && var t := Apply(s, turn).streams[i];
         Ended(t) && t.written == s.streams[i].written + [Event(t.job, StatusKind, s.jobs[t.job].status)]
         && IsTerminal(s.jobs[t.job].status)
  {
    RunKeepsInvariant(steps);
    var s := Run(steps).value;
    assert JobValid(s.jobs[s.streams[i].job]);
  }

  lemma Extend(steps: seq<Step>, s: System, step: Step)
    requires Run(steps) == Some(s) && Enabled(s, step)
    ensures Run(steps + [step]) == Some(Apply(s, step))
  {
    assert (steps + [step])[..|steps|] == steps;
  }

  lemma More(steps: seq<Step>, s: System, step: Step) returns (steps': seq<Step>, s': System)
    requires Run(steps) == Some(s) && Enabled(s, step)
    ensures s' == Apply(s, step) && Run(steps') == Some(s') && steps' == steps + [step]
  {
    Extend(steps, s, step);
    steps', s' := steps + [step], Apply(s, step);
  }
}
