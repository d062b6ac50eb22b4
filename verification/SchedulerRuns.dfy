/** Every interleaving of the scheduler goroutine, its submitters and the hooks
    that transfer workers fire (client/tag_scheduler.go), as runs of atomic steps.
    A hook claims its flag in one step and sends its event in a later one. */
module SchedulerRuns {
  import opened Collections
  import opened SchedulerBooks

  datatype Phase = Submitting | Refused | Queued | WithWorker | Finished | Dropped

  /** A transfer and its hooks: `fired` is the compare-and-swap flag,
      `firstByteHeld` a claimed first-byte event that is not sent yet, `doneHeld`
      a done event that is not sent yet and its `stillStarving`. */
  datatype Transfer = Transfer(tag: Tag, phase: Phase, fired: bool, firstByteHeld: bool, doneHeld: Option<bool>)
  {
    predicate WasDispatched() { phase == WithWorker || phase == Finished }
    predicate WasAdmitted() { phase != Submitting && phase != Refused }
  }

  /** `lost` holds the events that hooks gave up once `stop` was closed; the three
      logs record admissions, dispatches and drops in order. */
  datatype System = System(lim: Limits, books: Books, files: seq<Transfer>,
                           queue: seq<Event>, lost: seq<Event>, stopClosed: bool, exited: bool,
                           admitted: seq<File>, dispatched: seq<File>, dropped: seq<File>)

  datatype Step =
    | SubmitFile(tag: Tag)
    | AdmitFile(id: nat, now: int)
    | AbandonSubmit(id: nat)
    | DispatchHead(tag: Tag, now: int)
    | ClaimFirstByte(id: nat)
    | SendFirstByte(id: nat, delivered: bool)
    | ClaimDone(id: nat)
    | SendDone(id: nat, delivered: bool)
    | HandleEvent(now: int)
    | TickEma(alpha: real)
    | EvictIdle(now: int)
    | CloseStop
    | ExitLoop(order: seq<Tag>)

  function Init(lim: Limits): System {
    System(lim, EMPTY, [], [], [], false, false, [], [], [])
  }

  /** When a step can be taken. An event can be given up only once `stop` is closed. */
  ghost predicate Enabled(s: System, step: Step) {
    match step
    case SubmitFile(_) => true
    case AdmitFile(id, _) => !s.exited && InPhase(s, id, Submitting)
    case AbandonSubmit(id) => InPhase(s, id, Submitting)
    case DispatchHead(tag, _) => !s.exited && Eligible(s.lim, s.books.tags, tag)
    case ClaimFirstByte(id) => InPhase(s, id, WithWorker) || InPhase(s, id, Finished)
    case SendFirstByte(id, delivered) => id < |s.files| && s.files[id].firstByteHeld && (delivered || s.stopClosed)
    case ClaimDone(id) => InPhase(s, id, WithWorker)
    case SendDone(id, delivered) => id < |s.files| && s.files[id].doneHeld.Some? && (delivered || s.stopClosed)
    case HandleEvent(_) => !s.exited && s.queue != []
    case TickEma(alpha) => !s.exited && CanTick(s.lim, s.books.tags, alpha)
    case EvictIdle(_) => !s.exited
    case CloseStop => true
    case ExitLoop(order) => !s.exited && Enumerates(order, s.books.tags)
  }

  predicate InPhase(s: System, id: nat, phase: Phase) {
    id < |s.files| && s.files[id].phase == phase
  }

  function WithPhase(files: seq<Transfer>, id: nat, phase: Phase): seq<Transfer> {
    if id < |files| then files[id := files[id].(phase := phase)] else files
  }

  function Posted(s: System, e: Event, delivered: bool): System {
    if delivered then s.(queue := s.queue + [e]) else s.(lost := s.lost + [e])
  }

  function DropQueued(f: Transfer): Transfer {
    if f.phase == Queued then f.(phase := Dropped) else f
  }

  function DropAll(files: seq<Transfer>): seq<Transfer> {
    seq(|files|, i requires 0 <= i < |files| => DropQueued(files[i]))
  }

  function Submitted(tag: Tag): Transfer {
    Transfer(tag, Submitting, false, false, None)
  }

  function AfterAdmit(s: System, id: nat, now: int): System
    requires id < |s.files|
  {
    var f := Ticket(s, id);
    var (books, shed) := Admit(s.lim, s.books, f, now);
    if shed.None? then s.(books := books, files := WithPhase(s.files, id, Queued), admitted := s.admitted + [f])
    else s.(books := books, files := WithPhase(s.files, id, Refused))
  }

  function AfterDispatch(s: System, tag: Tag, now: int): System
    requires tag in s.books.tags && s.books.tags[tag].fifo != []
  {
    var head := s.books.tags[tag].fifo[0];
    s.(books := Dispatched(s.books, tag, now), files := WithPhase(s.files, head.id, WithWorker),
       dispatched := s.dispatched + [head])
  }

  function AfterFirstByteClaim(s: System, id: nat): System
    requires id < |s.files|
  {
    var f := s.files[id];
    if f.fired then s else s.(files := s.files[id := f.(fired := true, firstByteHeld := true)])
  }

  function AfterFirstByteSend(s: System, id: nat, delivered: bool): System
    requires id < |s.files|
  {
    var f := s.files[id];
    Posted(s.(files := s.files[id := f.(firstByteHeld := false)]), Event(FirstByte, f.tag, false), delivered)
  }

  function AfterDoneClaim(s: System, id: nat): System
    requires id < |s.files|
  {
    var f := s.files[id];
    s.(files := s.files[id := f.(phase := Finished, fired := true, doneHeld := Some(!f.fired))])
  }

  function AfterDoneSend(s: System, id: nat, delivered: bool): System
    requires id < |s.files| && s.files[id].doneHeld.Some?
  {
    var f := s.files[id];
    Posted(s.(files := s.files[id := f.(doneHeld := None)]), Event(Done, f.tag, f.doneHeld.value), delivered)
  }

  function AfterHandle(s: System, now: int): System
    requires s.queue != []
  {
    s.(books := Handle(s.books, s.queue[0], now), queue := s.queue[1..])
  }

  function AfterExit(s: System, order: seq<Tag>): System {
    s.(books := s.books.(tags := Emptied(s.books.tags), pending := 0), files := DropAll(s.files),
       dropped := s.dropped + DrainOrder(order, s.books.tags), exited := true, stopClosed := true)
  }

  ghost function Apply(s: System, step: Step): System
    requires Enabled(s, step)
  {
    match step
    case SubmitFile(tag) => s.(files := s.files + [Submitted(tag)])
    case AdmitFile(id, now) => AfterAdmit(s, id, now)
    case AbandonSubmit(id) => s.(files := WithPhase(s.files, id, Refused))
    case DispatchHead(tag, now) => AfterDispatch(s, tag, now)
    case ClaimFirstByte(id) => AfterFirstByteClaim(s, id)
    case SendFirstByte(id, delivered) => AfterFirstByteSend(s, id, delivered)
    case ClaimDone(id) => AfterDoneClaim(s, id)
    case SendDone(id, delivered) => AfterDoneSend(s, id, delivered)
    case HandleEvent(now) => AfterHandle(s, now)
    case TickEma(alpha) => s.(books := s.books.(tags := Tick(s.books.tags, alpha)))
    case EvictIdle(now) => s.(books := s.books.(tags := Evict(s.lim, s.books.tags, now)))
    case CloseStop => s.(stopClosed := true)
    case ExitLoop(order) => AfterExit(s, order)
  }

  /** The state a run leads to, if each of its steps is enabled where it is taken. */
  ghost function Run(lim: Limits, steps: seq<Step>): Option<System> {
    if steps == [] then Some(Init(lim))
    else
      match Run(lim, steps[..|steps| - 1])
      case None => None
      case Some(s) =>
        if Enabled(s, steps[|steps| - 1]) then Some(Apply(s, steps[|steps| - 1])) else None
  }

  // ----- The ledger -----

  function ActiveShare(t: Tag): Transfer -> int {
    (f: Transfer) =>
      if f.tag == t then (if f.phase == WithWorker then 1 else 0) + (if f.doneHeld.Some? then 1 else 0) else 0
  }

  function StarvingShare(t: Tag): Transfer -> int {
    (f: Transfer) =>
      if f.tag == t then
        (if f.WasDispatched() && !f.fired then 1 else 0) + (if f.firstByteHeld then 1 else 0)
        + (if f.doneHeld == Some(true) then 1 else 0)
      else 0
  }

  function DoneCredit(t: Tag): Event -> int {
    (e: Event) => if e.tag == t && e.kind == Done then 1 else 0
  }

  function StarvingCredit(t: Tag): Event -> int {
    (e: Event) => if e.tag == t && (e.kind == FirstByte || e.stillStarving) then 1 else 0
  }

  /** Dispatched transfers of `t` whose done event is not handled yet. */
  function ActiveOwed(s: System, t: Tag): int {
    Sum(s.files, ActiveShare(t)) + Sum(s.queue, DoneCredit(t)) + Sum(s.lost, DoneCredit(t))
  }

  /** Dispatched transfers of `t` with an unclaimed flag, and claimed starving
      decrements that are not handled yet. */
  function StarvingOwed(s: System, t: Tag): int {
    Sum(s.files, StarvingShare(t)) + Sum(s.queue, StarvingCredit(t)) + Sum(s.lost, StarvingCredit(t))
  }

  ghost predicate LedgerBalances(s: System) {
    forall t :: At(s.books.tags, t).active == ActiveOwed(s, t)
             && At(s.books.tags, t).starving == StarvingOwed(s, t)
  }

  predicate TransferValid(f: Transfer) {
    && (!f.WasDispatched() ==> !f.fired && !f.firstByteHeld && f.doneHeld.None?)
    && (f.firstByteHeld ==> f.fired)
    && (f.doneHeld.Some? ==> f.phase == Finished && f.fired)
    && (f.doneHeld == Some(true) ==> !f.firstByteHeld)
    && (f.phase == Finished ==> f.fired)
  }

  predicate EventValid(e: Event) {
    e.kind == FirstByte ==> !e.stillStarving
  }

  ghost predicate HooksValid(s: System) {
    && (forall i :: 0 <= i < |s.files| ==> TransferValid(s.files[i]))
    && (forall e :: e in s.queue + s.lost ==> EventValid(e))
    && (!s.stopClosed ==> s.lost == [])
  }

  // ----- The queues and the logs -----

  function OnTag(t: Tag): File -> bool {
    (f: File) => f.tag == t
  }

  predicate FifosValid(tags: map<Tag, TagState>) {
    forall t :: t in tags ==> forall f :: f in tags[t].fifo ==> f.tag == t
  }

  /** On one tag, the admissions are the dispatches, then the queue, then the drops. */
  predicate OrderValidOn(s: System, t: Tag) {
    Select(s.admitted, OnTag(t))
      == Select(s.dispatched, OnTag(t)) + At(s.books.tags, t).fifo + Select(s.dropped, OnTag(t))
  }

  ghost predicate OrderValid(s: System) {
    forall t :: OrderValidOn(s, t)
  }

  predicate Owns(files: seq<Transfer>, f: File) {
    f.id < |files| && files[f.id].tag == f.tag
  }

  function Ticket(s: System, id: nat): File
    requires id < |s.files|
  {
    File(id, s.files[id].tag)
  }

  ghost predicate LogsValid(s: System) {
    && (forall f :: f in s.admitted ==> Owns(s.files, f))
    && (forall id :: 0 <= id < |s.files| ==>
          && Occurrences(s.admitted, Ticket(s, id)) == (if s.files[id].WasAdmitted() then 1 else 0)
          && Occurrences(s.dispatched, Ticket(s, id)) == (if s.files[id].WasDispatched() then 1 else 0)
          && (s.files[id].phase == Dropped ==> s.exited)
          && (s.files[id].phase == Queued ==> !s.exited))
    && (!s.exited ==> s.dropped == [])
    && (s.exited ==> s.stopClosed && forall t :: At(s.books.tags, t).fifo == [])
  }

  ghost predicate TotalsValid(s: System) {
    && s.books.pending == MapTotal(s.books.tags, FifoLength())
    && s.books.totalAdmits == |s.admitted|
    && |s.admitted| == |s.dispatched| + s.books.pending + |s.dropped|
  }

  ghost predicate BoundsHold(lim: Limits, b: Books) {
    && (lim.pendingSize > 0 && NonEmpty(b.tags) != {} ==> b.pending <= lim.pendingSize + |NonEmpty(b.tags)| - 1)
    && (lim.perTagPendingSize > 0 ==> forall t :: t in b.tags ==> |b.tags[t].fifo| <= lim.perTagPendingSize)
  }

  ghost predicate Invariant(s: System) {
    && BooksValid(s.lim, s.books)
    && HooksValid(s)
    && LedgerBalances(s)
    && FifosValid(s.books.tags)
    && OrderValid(s)
    && LogsValid(s)
    && TotalsValid(s)
    && BoundsHold(s.lim, s.books)
  }
}
