/** The event streams of jobs (client_agent/job_events.go): publishers, subscribers with
    bounded lossy buffers, and the streams that follow a job to its end. */
module JobEvents {
  import opened Collections

  type JobId = nat
  type SubId = nat

  datatype Status = NoStatus | Pending | Running | Completed | Failed | Cancelled

  predicate IsTerminal(s: Status) {
    s == Completed || s == Failed || s == Cancelled
  }

  /** The kind of an event; one left empty is written as a status. */
  datatype Kind = NoKind | StatusKind | ProgressKind

  datatype Event = Event(job: JobId, kind: Kind, status: Status)

  function Shown(ev: Event): Event {
    if ev.kind == NoKind then ev.(kind := StatusKind) else ev
  }

  const CAPACITY: nat := 8

  // ----- The hub of subscribers -----

  datatype Hub = Hub(subscribers: map<JobId, map<SubId, seq<Event>>>, nextSub: SubId, closed: set<SubId>,
                     panicked: bool)

  function SubscribersOf(subscribers: map<JobId, map<SubId, seq<Event>>>, j: JobId): map<SubId, seq<Event>> {
    if j in subscribers then subscribers[j] else map[]
  }

  /** A send that does not block: a full buffer loses the event. */
  function Offer(buffer: seq<Event>, ev: Event): seq<Event> {
    if |buffer| < CAPACITY then buffer + [ev] else buffer
  }

  function Subscribe(h: Hub, j: JobId): Hub {
    h.(subscribers := h.subscribers[j := SubscribersOf(h.subscribers, j)[h.nextSub := []]], nextSub := h.nextSub + 1)
  }

  function OfferAll(subs: map<SubId, seq<Event>>, ev: Event): map<SubId, seq<Event>> {
    map id | id in subs :: Offer(subs[id], ev)
  }

  predicate AnyClosed(ids: set<SubId>, closed: set<SubId>) {
    ids * closed != {}
  }

  /** Sending on a closed channel would panic. */
  function Publish(h: Hub, ev: Event): Hub {
    var subs := SubscribersOf(h.subscribers, ev.job);
    h.(subscribers := if ev.job in h.subscribers then h.subscribers[ev.job := OfferAll(subs, ev)] else h.subscribers,
       panicked := h.panicked || AnyClosed(subs.Keys, h.closed))
  }

  /** Removes the subscriber and closes its channel; closing twice would panic. */
  function Unsubscribe(h: Hub, j: JobId, id: SubId): Hub {
    var subs := SubscribersOf(h.subscribers, j);
    var left := subs - {id};
    h.(subscribers := if left == map[] then h.subscribers - {j} else h.subscribers[j := left],
       closed := if id in subs then h.closed + {id} else h.closed,
       panicked := h.panicked || (id in subs && id in h.closed))
  }

  // ----- The system -----

  /** How far the goroutine of a job has come: the status it wrote, and what it has
      published. */
  datatype Execution = Queued | RunningSet | Executing | FinalSet | FinalRead(status: Status) | Announced

  /** `outcome` is the terminal status the goroutine of the job arrived at. */
  datatype Job = Job(status: Status, execution: Execution, outcome: Option<Status>, watchers: int, inMemory: bool)

  datatype Position = Registered | Counted | Looping | Leaving | Unsubscribed | Gone

  /** A stream: `counts` says whether it found the job in memory when it subscribed, and
      `cancelled` whether its client went away. */
  datatype Stream = Stream(job: JobId, sub: SubId, counts: bool, fallback: Status, position: Position, cancelled: bool,
                           written: seq<Event>)

  datatype System = System(jobs: map<JobId, Job>, hub: Hub, streams: seq<Stream>)

  const START: System := System(map[], Hub(map[], 0, {}, false), [])

  datatype Step =
    | Submit(j: JobId)
    | SetRunning(j: JobId)
    | AnnounceRunning(j: JobId)
    | AnnounceProgress(j: JobId)
    | SetFinal(j: JobId, status: Status)
    | ReadFinal(j: JobId)
    | AnnounceFinal(j: JobId)
    | CancelJob(j: JobId)
    | Evict(j: JobId)
    | Open(j: JobId, fallback: Status, found: bool)
    | Count(i: nat)
    | WriteCurrent(i: nat)
    | TakeEvent(i: nat)
    | KeepAlive(i: nat)
    | ClientLeaves(i: nat)
    | LeaveHub(i: nat)
    | Uncount(i: nat)

  function BufferIn(subscribers: map<JobId, map<SubId, seq<Event>>>, j: JobId, id: SubId): seq<Event> {
    var subs := SubscribersOf(subscribers, j);
    if id in subs then subs[id] else []
  }

  function BufferOf(s: System, i: nat): seq<Event>
    requires i < |s.streams|
  {
    BufferIn(s.hub.subscribers, s.streams[i].job, s.streams[i].sub)
  }

  predicate At(s: System, i: nat, p: Position) {
    i < |s.streams| && s.streams[i].position == p
  }

  predicate JobAt(s: System, j: JobId, e: Execution) {
    j in s.jobs && s.jobs[j].execution == e
  }

  /** When a step can be taken. A cancellation waits for the goroutine of the job, which
      ends after its announcement, before it relabels a job that did not complete. */
  predicate Enabled(s: System, step: Step) {
    match step
    case Submit(j) => j !in s.jobs
    case SetRunning(j) => JobAt(s, j, Queued)
    case AnnounceRunning(j) => JobAt(s, j, RunningSet)
    case AnnounceProgress(j) => JobAt(s, j, Executing)
    case SetFinal(j, status) =>
      (JobAt(s, j, Queued) && status == Cancelled) || (JobAt(s, j, Executing) && IsTerminal(status))
    case ReadFinal(j) => JobAt(s, j, FinalSet)
    case AnnounceFinal(j) => j in s.jobs && s.jobs[j].execution.FinalRead?
    case CancelJob(j) => JobAt(s, j, Announced) && s.jobs[j].status != Completed
    case Evict(j) => j in s.jobs && s.jobs[j].inMemory && IsTerminal(s.jobs[j].status) && s.jobs[j].watchers == 0
    case Open(j, _, found) => found ==> j in s.jobs
    case Count(i) => At(s, i, Registered)
    case WriteCurrent(i) => At(s, i, Counted)
    case TakeEvent(i) => At(s, i, Looping) && BufferOf(s, i) != []
    case KeepAlive(i) => At(s, i, Looping)
    case ClientLeaves(i) => At(s, i, Looping)
    case LeaveHub(i) => At(s, i, Leaving)
    case Uncount(i) => At(s, i, Unsubscribed)
  }

  function WithStatus(s: System, j: JobId, status: Status, e: Execution): System
    requires j in s.jobs
  {
    s.(jobs := s.jobs[j := s.jobs[j].(status := status, execution := e)])
  }

  function WithWatchers(s: System, i: nat, delta: int): map<JobId, Job>
    requires i < |s.streams|
  {
    var j := s.streams[i].job;
    if s.streams[i].counts && j in s.jobs then s.jobs[j := s.jobs[j].(watchers := s.jobs[j].watchers + delta)]
    else s.jobs
  }

  function WithPosition(streams: seq<Stream>, i: nat, p: Position): seq<Stream>
    requires i < |streams|
  {
    streams[i := streams[i].(position := p)]
  }

  /** The event is written, and a terminal one is the last. */
  function WithWritten(streams: seq<Stream>, i: nat, ev: Event): seq<Stream>
    requires i < |streams|
  {
    streams[i := streams[i].(written := streams[i].written + [Shown(ev)],
                             position := if IsTerminal(ev.status) then Leaving else Looping)]
  }

  predicate InMemory(s: System, j: JobId) {
    j in s.jobs && s.jobs[j].inMemory
  }

  function AfterTake(s: System, i: nat): System
    requires At(s, i, Looping) && BufferOf(s, i) != []
  {
    var j, id := s.streams[i].job, s.streams[i].sub;
    var subs := SubscribersOf(s.hub.subscribers, j);
    s.(hub := s.hub.(subscribers := s.hub.subscribers[j := subs[id := subs[id][1..]]]),
       streams := WithWritten(s.streams, i, subs[id][0]))
  }

  function AfterKeepAlive(s: System, i: nat): System
    requires At(s, i, Looping)
  {
    var j := s.streams[i].job;
    if InMemory(s, j) && IsTerminal(s.jobs[j].status)
    then s.(streams := WithWritten(s.streams, i, Event(j, StatusKind, s.jobs[j].status)))
    else s
  }

  function Apply(s: System, step: Step): System
    requires Enabled(s, step)
  {
    match step
    case Submit(j) => s.(jobs := s.jobs[j := Job(Pending, Queued, None, 0, true)])
    case SetRunning(j) => WithStatus(s, j, Running, RunningSet)
    case AnnounceRunning(j) =>
      WithStatus(s, j, s.jobs[j].status, Executing).(hub := Publish(s.hub, Event(j, NoKind, Running)))
    case AnnounceProgress(j) =>
      if s.jobs[j].watchers == 0 then s else s.(hub := Publish(s.hub, Event(j, ProgressKind, NoStatus)))
    case SetFinal(j, status) =>
      s.(jobs := s.jobs[j := s.jobs[j].(status := status, execution := FinalSet, outcome := Some(status))])
    case ReadFinal(j) => WithStatus(s, j, s.jobs[j].status, FinalRead(s.jobs[j].status))
    case AnnounceFinal(j) =>
      var ev := Event(j, StatusKind, s.jobs[j].execution.status);
      WithStatus(s, j, s.jobs[j].status, Announced).(hub := Publish(s.hub, ev))
    case CancelJob(j) => WithStatus(s, j, Cancelled, s.jobs[j].execution)
    case Evict(j) => s.(jobs := s.jobs[j := s.jobs[j].(inMemory := false)])
    case Open(j, fallback, found) =>
      s.(hub := Subscribe(s.hub, j),
         streams := s.streams + [Stream(j, s.hub.nextSub, found, fallback, Registered, false, [])])
    case Count(i) => s.(jobs := WithWatchers(s, i, 1), streams := WithPosition(s.streams, i, Counted))
    case WriteCurrent(i) =>
      var j := s.streams[i].job;
      var status := if InMemory(s, j) then s.jobs[j].status else s.streams[i].fallback;
      s.(streams := WithWritten(s.streams, i, Event(j, StatusKind, status)))
    case TakeEvent(i) => AfterTake(s, i)
    case KeepAlive(i) => AfterKeepAlive(s, i)
    case ClientLeaves(i) => s.(streams := s.streams[i := s.streams[i].(position := Leaving, cancelled := true)])
    case LeaveHub(i) =>
      s.(hub := Unsubscribe(s.hub, s.streams[i].job, s.streams[i].sub),
         streams := WithPosition(s.streams, i, Unsubscribed))
    case Uncount(i) => s.(jobs := WithWatchers(s, i, -1), streams := WithPosition(s.streams, i, Gone))
  }

  /** The state a run leads to, if each of its steps is enabled where it is taken. */
  ghost function Run(steps: seq<Step>): Option<System> {
    if steps == [] then Some(START)
    else
      match Run(steps[..|steps| - 1])
      case None => None
      case Some(s) =>
        if Enabled(s, steps[|steps| - 1]) then Some(Apply(s, steps[|steps| - 1])) else None
  }

  // ----- What every run keeps -----

  predicate IsFinal(e: Execution) {
    e.FinalSet? || e.FinalRead? || e.Announced?
  }

  /** The statuses a finished job may be reported with: its outcome, or, once that is
      announced, the cancellation that relabelled a failure. */
  predicate IsReport(job: Job, status: Status) {
    && job.outcome.Some?
    && (status == job.outcome.value
        || (job.outcome.value == Failed && job.execution == Announced && status == Cancelled))
  }

  /** A job has a terminal status exactly when its outcome is set, and announces it. */
  predicate JobValid(job: Job) {
    && (job.outcome.Some? <==> IsFinal(job.execution))
    && (job.outcome.Some? ==> IsTerminal(job.outcome.value) && IsReport(job, job.status))
    && (job.outcome.None? ==> !IsTerminal(job.status))
    && (job.execution.FinalRead? ==> job.execution.status == job.outcome.value)
  }

  ghost predicate JobsValid(jobs: map<JobId, Job>) {
    forall j :: j in jobs ==> JobValid(jobs[j])
  }

  predicate NoneTerminal(written: seq<Event>) {
    forall k :: 0 <= k < |written| ==> !IsTerminal(written[k].status)
  }

  predicate OnlyLastTerminal(written: seq<Event>) {
    written != [] && IsTerminal(written[|written| - 1].status) && NoneTerminal(written[..|written| - 1])
  }

  /** What a stream has written matches where it stands: nothing terminal while it goes
      on or if its client left, exactly one terminal event, the last, if it ended. */
  predicate StreamValid(t: Stream) {
    match t.position
    case Registered => t.written == [] && !t.cancelled
    case Counted => t.written == [] && !t.cancelled
    case Looping => t.written != [] && NoneTerminal(t.written) && !t.cancelled
    case _ => if t.cancelled then t.written != [] && NoneTerminal(t.written) else OnlyLastTerminal(t.written)
  }

  ghost predicate StreamsValid(streams: seq<Stream>) {
    forall i :: 0 <= i < |streams| ==> StreamValid(streams[i])
  }

  predicate Ended(t: Stream) {
    t.position == Leaving || t.position == Unsubscribed || t.position == Gone
  }

  /** What a stream that ended reports: the outcome of its job, or the fallback status it
      was opened with when the job was not in memory. */
  predicate ReportsRight(t: Stream, jobs: map<JobId, Job>) {
    Ended(t) && !t.cancelled && t.written != [] ==>
      || (t.job in jobs && IsReport(jobs[t.job], t.written[|t.written| - 1].status))
      || t.written == [Event(t.job, StatusKind, t.fallback)]
  }

  ghost predicate ReportsValid(streams: seq<Stream>, jobs: map<JobId, Job>) {
    forall i :: 0 <= i < |streams| ==> ReportsRight(streams[i], jobs)
  }

  predicate HasChannel(t: Stream) {
    t.position != Unsubscribed && t.position != Gone
  }

  /** The channel of a stream that has not left is there and open. */
  predicate ChannelValid(t: Stream, hub: Hub) {
    && t.sub < hub.nextSub
    && (HasChannel(t) ==> t.job in hub.subscribers && t.sub in hub.subscribers[t.job] && t.sub !in hub.closed)
  }

  ghost predicate ChannelsValid(streams: seq<Stream>, hub: Hub) {
    && (forall i :: 0 <= i < |streams| ==> ChannelValid(streams[i], hub))
    && (forall i, k :: 0 <= i < k < |streams| ==> streams[i].sub != streams[k].sub)
  }

  /** Registered channels are open, in bounds, and hold events of their own job, terminal
      ones only once the job has announced its end. */
  predicate BufferValid(buffer: seq<Event>, j: JobId, jobs: map<JobId, Job>) {
    && |buffer| <= CAPACITY
    && forall k :: 0 <= k < |buffer| ==>
         && buffer[k].job == j
         && (IsTerminal(buffer[k].status) ==> JobAnnounced(jobs, j) && jobs[j].outcome == Some(buffer[k].status))
  }

  predicate JobAnnounced(jobs: map<JobId, Job>, j: JobId) {
    j in jobs && jobs[j].execution == Announced
  }

  ghost predicate SubsValid(subs: map<SubId, seq<Event>>, j: JobId, jobs: map<JobId, Job>, nextSub: SubId,
                            closed: set<SubId>)
  {
    forall id :: id in subs ==> id < nextSub && id !in closed && BufferValid(subs[id], j, jobs)
  }

  /** A channel is registered for one job only. */
  ghost predicate OneJobEach(subscribers: map<JobId, map<SubId, seq<Event>>>) {
    forall j, k, id :: j in subscribers && k in subscribers && id in subscribers[j] && id in subscribers[k] ==> j == k
  }

  ghost predicate HubValid(hub: Hub, jobs: map<JobId, Job>) {
    && !hub.panicked
    && OneJobEach(hub.subscribers)
    && (forall id :: id in hub.closed ==> id < hub.nextSub)
    && forall j :: j in hub.subscribers ==> SubsValid(hub.subscribers[j], j, jobs, hub.nextSub, hub.closed)
  }

  /** Whether a stream is counted among the watchers of the job. */
  function Watches(j: JobId): Stream -> int {
    (t: Stream) => if t.job == j && t.counts && t.position != Registered && t.position != Gone then 1 else 0
  }

  ghost predicate WatchersValid(jobs: map<JobId, Job>, streams: seq<Stream>) {
    && (forall j :: j in jobs ==> jobs[j].watchers == Sum(streams, Watches(j)))
    && (forall i :: 0 <= i < |streams| && streams[i].counts ==> streams[i].job in jobs)
  }

  ghost predicate Invariant(s: System) {
    && JobsValid(s.jobs)
    && StreamsValid(s.streams)
    && ChannelsValid(s.streams, s.hub)
    && HubValid(s.hub, s.jobs)
    && WatchersValid(s.jobs, s.streams)
    && ReportsValid(s.streams, s.jobs)
  }
}
