/** When a hook can find the scheduler's event buffer full: exactly when so many tags are
    in use that the events on their way can outnumber it. */
module SchedulerBlocking {
  import opened Collections
  import opened SchedulerBooks
  import opened SchedulerRuns
  import opened SchedulerSafety
  import opened SchedulerTheorems
  import opened SchedulerBuffer

  predicate OnlyTags(steps: seq<Step>, tags: set<Tag>) {
    forall k :: 0 <= k < |steps| && steps[k].SubmitFile? ==> steps[k].tag in tags
  }

  /** The run leads to `s`, submits only files of the tags and stays within the pool. */
  ghost predicate Reaches(lim: Limits, tags: set<Tag>, steps: seq<Step>, s: System) {
    Run(lim, steps) == Some(s) && s.lim == lim && InPool(lim, steps) && OnlyTags(steps, tags)
  }

  lemma Go(lim: Limits, tags: set<Tag>, steps: seq<Step>, s: System, step: Step) returns (steps': seq<Step>, s': System)
    requires Reaches(lim, tags, steps, s) && Enabled(s, step)
    requires Busy(Apply(s, step)) <= lim.workerCount && (step.SubmitFile? ==> step.tag in tags)
    ensures s' == Apply(s, step) && Reaches(lim, tags, steps', s')
  {
    Extend(lim, steps, s, step);
    steps', s' := steps + [step], Apply(s, step);
    assert steps'[..|steps'| - 1] == steps;
  }

  /** A step that changes only the last transfer takes at most one more worker. */
  lemma GoLast(lim: Limits, tags: set<Tag>, steps: seq<Step>, s: System, step: Step, files: seq<Transfer>, f: Transfer,
               g: Transfer)
    returns (steps': seq<Step>, s': System)
    requires Reaches(lim, tags, steps, s) && Enabled(s, step) && !step.SubmitFile?
    requires s.files == files + [f] && Apply(s, step).files == files + [g] && ActiveOf(g) <= 1
    requires Sum(files, ActiveUnits()) < lim.workerCount
    ensures s' == Apply(s, step) && Reaches(lim, tags, steps', s')
  {
    SumAppend(files, g, ActiveUnits());
    steps', s' := Go(lim, tags, steps, s, step);
  }

  // ----- Filling the buffer -----

  datatype Tally = Tally(active: int, starving: int, waiting: int)

  function TallyOf(b: Books, t: Tag): Tally {
    Tally(At(b.tags, t).active, At(b.tags, t).starving, |At(b.tags, t).fifo|)
  }

  predicate Counts(b: Books, t: Tag, active: int, starving: int) {
    TallyOf(b, t) == Tally(active, starving, 0)
  }

  predicate SameTally(b: Books, b': Books, t: Tag) {
    TallyOf(b', t) == TallyOf(b, t)
  }

  ghost predicate OthersSame(b: Books, b': Books, t: Tag) {
    forall u :: u != t ==> SameTally(b, b', u)
  }

  predicate IsOpen(s: System) {
    !s.exited && !s.stopClosed
  }

  /** A transfer's whole way to a worker. */
  lemma SendToWorker(lim: Limits, tags: set<Tag>, steps: seq<Step>, s: System, t: Tag)
    returns (steps': seq<Step>, s': System)
    requires lim.Valid() && Reaches(lim, tags, steps, s) && t in tags && IsOpen(s) && Busy(s) < lim.workerCount
    requires TallyOf(s.books, t).waiting == 0
    requires TallyOf(s.books, t).active < lim.activeCap && TallyOf(s.books, t).starving < lim.starvingCap
    ensures Reaches(lim, tags, steps', s') && IsOpen(s')
    ensures s'.files == s.files + [AtWork(t)] && s'.queue == s.queue
    ensures Counts(s'.books, t, TallyOf(s.books, t).active + 1, TallyOf(s.books, t).starving + 1)
    ensures OthersSame(s.books, s'.books, t)
  {
    var s1, s2;
    steps', s1 := SubmitNew(lim, tags, steps, s, t);
    steps', s2 := AdmitNew(lim, tags, steps', s1, s.files, t);
    steps', s' := DispatchNew(lim, tags, steps', s2, s.files, t);
    OthersStaySame(s.books, s2.books, s'.books, t);
  }

  lemma OthersStaySame(b: Books, mid: Books, b': Books, t: Tag)
    requires OthersSame(b, mid, t) && OthersSame(mid, b', t)
    ensures OthersSame(b, b', t)
  {
    forall u | u != t ensures SameTally(b, b', u) {
      assert SameTally(b, mid, u) && SameTally(mid, b', u);
    }
  }

  lemma SubmitNew(lim: Limits, tags: set<Tag>, steps: seq<Step>, s: System, t: Tag)
    returns (steps': seq<Step>, s': System)
    requires Reaches(lim, tags, steps, s) && t in tags && IsOpen(s) && Busy(s) < lim.workerCount
    ensures Reaches(lim, tags, steps', s') && IsOpen(s')
    ensures s'.files == s.files + [Submitted(t)] && s'.queue == s.queue && s'.books == s.books
  {
    SumAppend(s.files, Submitted(t), ActiveUnits());
    steps', s' := Go(lim, tags, steps, s, SubmitFile(t));
  }

  lemma AdmitNew(lim: Limits, tags: set<Tag>, steps: seq<Step>, s: System, files: seq<Transfer>, t: Tag)
    returns (steps': seq<Step>, s': System)
    requires Reaches(lim, tags, steps, s) && IsOpen(s) && Sum(files, ActiveUnits()) < lim.workerCount
    requires s.files == files + [Submitted(t)] && TallyOf(s.books, t).waiting == 0
    ensures Reaches(lim, tags, steps', s') && IsOpen(s')
    ensures s'.files == files + [Submitted(t).(phase := Queued)] && s'.queue == s.queue
    ensures t in s'.books.tags && s'.books.tags[t].fifo == [File(|files|, t)]
    ensures TallyOf(s'.books, t) == TallyOf(s.books, t).(waiting := 1) && OthersSame(s.books, s'.books, t)
  {
    assert At(s.books.tags, t).fifo == [];
    steps', s' := GoLast(lim, tags, steps, s, AdmitFile(|files|, 0), files, Submitted(t),
                         Submitted(t).(phase := Queued));
  }

  lemma DispatchNew(lim: Limits, tags: set<Tag>, steps: seq<Step>, s: System, files: seq<Transfer>, t: Tag)
    returns (steps': seq<Step>, s': System)
    requires Reaches(lim, tags, steps, s) && IsOpen(s) && Sum(files, ActiveUnits()) < lim.workerCount
    requires s.files == files + [Submitted(t).(phase := Queued)]
    requires t in s.books.tags && s.books.tags[t].fifo == [File(|files|, t)]
    requires TallyOf(s.books, t).active < lim.activeCap && TallyOf(s.books, t).starving < lim.starvingCap
    ensures Reaches(lim, tags, steps', s') && IsOpen(s')
    ensures s'.files == files + [AtWork(t)] && s'.queue == s.queue
    ensures Counts(s'.books, t, TallyOf(s.books, t).active + 1, TallyOf(s.books, t).starving + 1)
    ensures OthersSame(s.books, s'.books, t)
  {
    steps', s' := GoLast(lim, tags, steps, s, DispatchHead(t, 0), files, Submitted(t).(phase := Queued),
                         AtWork(t));
  }

  /** Three ways a transfer can end: its first byte still held by its transport while
      its done event was handled; its first byte handled while its worker holds the done
      event; or both events in the channel. */
  datatype Ending = Late | Early | Full

  function Ended(e: Ending, t: Tag): Transfer {
    Transfer(t, Finished, true, e.Late?, if e.Early? then Some(false) else None)
  }

  function Posts(e: Ending, t: Tag): seq<Event> {
    if e.Full? then [Event(FirstByte, t, false), Event(Done, t, false)] else []
  }

  function ActiveLeft(e: Ending, n: nat): nat {
    if e.Late? then 0 else n
  }

  function StarvingLeft(e: Ending, n: nat): nat {
    if e.Early? then 0 else n
  }

  lemma Play(lim: Limits, tags: set<Tag>, steps: seq<Step>, s: System, e: Ending, t: Tag)
    returns (steps': seq<Step>, s': System)
    requires lim.Valid() && Reaches(lim, tags, steps, s) && t in tags && IsOpen(s) && Busy(s) < lim.workerCount
    requires TallyOf(s.books, t).waiting == 0 && (e.Full? || s.queue == [])
    requires 0 <= TallyOf(s.books, t).active < lim.activeCap && 0 <= TallyOf(s.books, t).starving < lim.starvingCap
    ensures Reaches(lim, tags, steps', s') && IsOpen(s')
    ensures s'.files == s.files + [Ended(e, t)] && s'.queue == s.queue + Posts(e, t)
    ensures Counts(s'.books, t, TallyOf(s.books, t).active + ActiveLeft(e, 1),
                   TallyOf(s.books, t).starving + StarvingLeft(e, 1))
    ensures OthersSame(s.books, s'.books, t)
  {
    var mid;
    steps', mid := SendToWorker(lim, tags, steps, s, t);
    match e
    case Late =>
      steps', s' := PlayLate(lim, tags, steps', mid, s.files, t);
      OthersStaySame(s.books, mid.books, s'.books, t);
    case Early =>
      steps', s' := PlayEarly(lim, tags, steps', mid, s.files, t);
      OthersStaySame(s.books, mid.books, s'.books, t);
    case Full =>
      steps', s' := PlayFull(lim, tags, steps', mid, s.files, t);
  }

  function AtWork(t: Tag): Transfer {
    Transfer(t, WithWorker, false, false, None)
  }

  predicate LastIs(s: System, files: seq<Transfer>, f: Transfer) {
    s.files == files + [f]
  }

  lemma ClaimFirst(lim: Limits, tags: set<Tag>, steps: seq<Step>, s: System, files: seq<Transfer>, f: Transfer)
    returns (steps': seq<Step>, s': System)
    requires Reaches(lim, tags, steps, s) && Sum(files, ActiveUnits()) < lim.workerCount
    requires LastIs(s, files, f) && f.phase == WithWorker && !f.fired && f.doneHeld.None?
    ensures Reaches(lim, tags, steps', s') && s' == s.(files := files + [f.(fired := true, firstByteHeld := true)])
  {
    var g := f.(fired := true, firstByteHeld := true);
    steps', s' := GoLast(lim, tags, steps, s, ClaimFirstByte(|files|), files, f, g);
  }

  lemma SendFirst(lim: Limits, tags: set<Tag>, steps: seq<Step>, s: System, files: seq<Transfer>, f: Transfer)
    returns (steps': seq<Step>, s': System)
    requires Reaches(lim, tags, steps, s) && Sum(files, ActiveUnits()) < lim.workerCount
    requires LastIs(s, files, f) && f.firstByteHeld && f.doneHeld.None?
    ensures Reaches(lim, tags, steps', s')
    ensures s' == s.(files := files + [f.(firstByteHeld := false)], queue := s.queue + [Event(FirstByte, f.tag, false)])
  {
    steps', s' := GoLast(lim, tags, steps, s, SendFirstByte(|files|, true), files, f, f.(firstByteHeld := false));
  }

  lemma ClaimLast(lim: Limits, tags: set<Tag>, steps: seq<Step>, s: System, files: seq<Transfer>, f: Transfer)
    returns (steps': seq<Step>, s': System)
    requires Reaches(lim, tags, steps, s) && Sum(files, ActiveUnits()) < lim.workerCount
    requires LastIs(s, files, f) && f.phase == WithWorker && f.fired
    ensures Reaches(lim, tags, steps', s')
    ensures s' == s.(files := files + [f.(phase := Finished, doneHeld := Some(false))])
  {
    var g := f.(phase := Finished, doneHeld := Some(false));
    steps', s' := GoLast(lim, tags, steps, s, ClaimDone(|files|), files, f, g);
  }

  lemma SendLast(lim: Limits, tags: set<Tag>, steps: seq<Step>, s: System, files: seq<Transfer>, f: Transfer)
    returns (steps': seq<Step>, s': System)
    requires Reaches(lim, tags, steps, s) && Sum(files, ActiveUnits()) < lim.workerCount
    requires LastIs(s, files, f) && f.phase == Finished && f.doneHeld == Some(false)
    ensures Reaches(lim, tags, steps', s')
    ensures s' == s.(files := files + [f.(doneHeld := None)], queue := s.queue + [Event(Done, f.tag, false)])
  {
    steps', s' := GoLast(lim, tags, steps, s, SendDone(|files|, true), files, f, f.(doneHeld := None));
  }

  lemma HandleOnly(lim: Limits, tags: set<Tag>, steps: seq<Step>, s: System, e: Event)
    returns (steps': seq<Step>, s': System)
    requires Reaches(lim, tags, steps, s) && Busy(s) <= lim.workerCount && !s.exited && s.queue == [e]
    ensures Reaches(lim, tags, steps', s') && s' == s.(books := Handle(s.books, e, 0), queue := [])
  {
    steps', s' := Go(lim, tags, steps, s, HandleEvent(0));
  }

  lemma PlayLate(lim: Limits, tags: set<Tag>, steps: seq<Step>, s: System, files: seq<Transfer>, t: Tag)
    returns (steps': seq<Step>, s': System)
    requires Reaches(lim, tags, steps, s) && IsOpen(s) && Sum(files, ActiveUnits()) < lim.workerCount
    requires LastIs(s, files, AtWork(t)) && s.queue == []
    requires TallyOf(s.books, t).active > 0 && TallyOf(s.books, t).waiting == 0
    ensures Reaches(lim, tags, steps', s') && IsOpen(s') && s'.files == files + [Ended(Late, t)] && s'.queue == []
    ensures Counts(s'.books, t, TallyOf(s.books, t).active - 1, TallyOf(s.books, t).starving)
    ensures OthersSame(s.books, s'.books, t)
  {
    var f := AtWork(t).(fired := true, firstByteHeld := true);
    var mid;
    steps', mid := ClaimFirst(lim, tags, steps, s, files, AtWork(t));
    steps', mid := ClaimLast(lim, tags, steps', mid, files, f);
    steps', mid := SendLast(lim, tags, steps', mid, files, f.(phase := Finished, doneHeld := Some(false)));
    SumAppend(files, Ended(Late, t), ActiveUnits());
    steps', s' := HandleOnly(lim, tags, steps', mid, Event(Done, t, false));
  }

  lemma PlayEarly(lim: Limits, tags: set<Tag>, steps: seq<Step>, s: System, files: seq<Transfer>, t: Tag)
    returns (steps': seq<Step>, s': System)
    requires Reaches(lim, tags, steps, s) && IsOpen(s) && Sum(files, ActiveUnits()) < lim.workerCount
    requires LastIs(s, files, AtWork(t)) && s.queue == []
    requires TallyOf(s.books, t).starving > 0 && TallyOf(s.books, t).waiting == 0
    ensures Reaches(lim, tags, steps', s') && IsOpen(s') && s'.files == files + [Ended(Early, t)] && s'.queue == []
    ensures Counts(s'.books, t, TallyOf(s.books, t).active, TallyOf(s.books, t).starving - 1)
    ensures OthersSame(s.books, s'.books, t)
  {
    var f := AtWork(t).(fired := true);
    var mid;
    steps', mid := ClaimFirst(lim, tags, steps, s, files, AtWork(t));
    steps', mid := SendFirst(lim, tags, steps', mid, files, f.(firstByteHeld := true));
    SumAppend(files, f, ActiveUnits());
    steps', mid := HandleOnly(lim, tags, steps', mid, Event(FirstByte, t, false));
    steps', s' := ClaimLast(lim, tags, steps', mid, files, f);
  }

  lemma PlayFull(lim: Limits, tags: set<Tag>, steps: seq<Step>, s: System, files: seq<Transfer>, t: Tag)
    returns (steps': seq<Step>, s': System)
    requires Reaches(lim, tags, steps, s) && IsOpen(s) && Sum(files, ActiveUnits()) < lim.workerCount
    requires LastIs(s, files, AtWork(t))
    ensures Reaches(lim, tags, steps', s') && IsOpen(s') && s'.files == files + [Ended(Full, t)]
    ensures s'.queue == s.queue + Posts(Full, t) && s'.books == s.books
  {
    var f := AtWork(t).(fired := true);
    var mid;
    steps', mid := ClaimFirst(lim, tags, steps, s, files, AtWork(t));
    steps', mid := SendFirst(lim, tags, steps', mid, files, f.(firstByteHeld := true));
    steps', mid := ClaimLast(lim, tags, steps', mid, files, f);
    steps', s' := SendLast(lim, tags, steps', mid, files, f.(phase := Finished, doneHeld := Some(false)));
    assert s'.queue == s.queue + Posts(Full, t);
  }

  /** The tags `n` times over. */
  function Times(tags: seq<Tag>, n: nat): seq<Tag> {
    if n == 0 then [] else Times(tags, n - 1) + tags
  }

  predicate Distinct(tags: seq<Tag>) {
    forall i, j :: 0 <= i < j < |tags| ==> tags[i] != tags[j]
  }

  lemma {:induction false} EachAtLeast(n: nat, c: int)
    requires c >= 1
    ensures Each(n, c) >= n && (c == 1 ==> Each(n, c) == n)
  {
    if n > 0 {
      EachAtLeast(n - 1, c);
    }
  }

  lemma {:induction false} EachOfNone(n: nat)
    ensures Each(n, 0) == 0
  {
    if n > 0 {
      EachOfNone(n - 1);
    }
  }

  lemma {:induction false} OccursOnce(tags: seq<Tag>, t: Tag)
    requires Distinct(tags)
    ensures Occurrences(tags, t) == if t in tags then 1 else 0
  {
    if tags != [] {
      var n := |tags| - 1;
      OccursOnce(tags[..n], t);
      assert tags == tags[..n] + [tags[n]];
    }
  }

  lemma {:induction false} OccursTimes(tags: seq<Tag>, n: nat, t: Tag)
    requires Distinct(tags)
    ensures Occurrences(Times(tags, n), t) == if t in tags then n else 0
    ensures |Times(tags, n)| == Each(|tags|, n) && forall u :: u in Times(tags, n) ==> u in tags
  {
    if n > 0 {
      OccursTimes(tags, n - 1, t);
      OccursOnce(tags, t);
      EachPlus(|tags|, n - 1, 1);
      EachAtLeast(|tags|, 1);
    } else {
      EachOfNone(|tags|);
    }
  }

  lemma PrefixOccurs(plan: seq<Tag>, k: nat, t: Tag)
    requires k <= |plan|
    ensures Occurrences(plan[..k], t) <= Occurrences(plan, t)
  {
    assert plan == plan[..k] + plan[k..];
  }

  /** Every tag of the plan has room for its transfers to end this way. */
  predicate RoomFor(lim: Limits, s: System, e: Ending, t: Tag, n: nat) {
    && TallyOf(s.books, t).waiting == 0 && TallyOf(s.books, t).active >= 0 && TallyOf(s.books, t).starving >= 0
    && TallyOf(s.books, t).active + ActiveLeft(e, n) + (if e.Late? then 1 else 0) <= lim.activeCap
    && TallyOf(s.books, t).starving + StarvingLeft(e, n) + (if e.Early? then 1 else 0) <= lim.starvingCap
  }

  ghost predicate HasRoom(lim: Limits, s: System, e: Ending, plan: seq<Tag>) {
    forall t :: t in plan ==> RoomFor(lim, s, e, t, Occurrences(plan, t))
  }

  predicate Grew(s: System, s': System, e: Ending, t: Tag, n: nat) {
    var was := TallyOf(s.books, t);
    TallyOf(s'.books, t) == Tally(was.active + ActiveLeft(e, n), was.starving + StarvingLeft(e, n), was.waiting)
  }

  ghost predicate Played(s: System, s': System, e: Ending, plan: seq<Tag>) {
    && (forall t :: Grew(s, s', e, t, Occurrences(plan, t)))
    && Busy(s') == Busy(s) + (if e.Early? then |plan| else 0)
    && Sum(s'.files, Unsent()) == Sum(s.files, Unsent()) + (if e.Full? then 0 else |plan|)
    && |s'.queue| == |s.queue| + (if e.Full? then 2 * |plan| else 0)
  }

  predicate NoneAtWork(s: System) {
    forall i :: 0 <= i < |s.files| ==> s.files[i].phase != WithWorker
  }

  lemma {:induction false} PlayAll(lim: Limits, tags: set<Tag>, steps: seq<Step>, s: System, e: Ending, plan: seq<Tag>)
    returns (steps': seq<Step>, s': System)
    requires lim.Valid() && Reaches(lim, tags, steps, s) && IsOpen(s) && (forall t :: t in plan ==> t in tags)
    requires Busy(s) + (if e.Early? then |plan| else 1) <= lim.workerCount && (e.Full? || s.queue == [])
    requires HasRoom(lim, s, e, plan) && NoneAtWork(s)
    ensures Reaches(lim, tags, steps', s') && IsOpen(s') && NoneAtWork(s') && Played(s, s', e, plan)
  {
    if plan == [] {
      steps', s' := steps, s;
      assert forall t :: Occurrences(plan, t) == 0;
    } else {
      var n := |plan| - 1;
      var before, t := plan[..n], plan[n];
      assert plan == before + [t];
      RoomForFewer(lim, s, e, before, t);
      var mid;
      steps', mid := PlayAll(lim, tags, steps, s, e, before);
      RoomForLast(lim, s, mid, e, before, t);
      steps', s' := Play(lim, tags, steps', mid, e, t);
      PlayedMore(s, mid, s', e, before, t);
    }
  }

  lemma RoomForFewer(lim: Limits, s: System, e: Ending, before: seq<Tag>, t: Tag)
    requires HasRoom(lim, s, e, before + [t])
    ensures HasRoom(lim, s, e, before)
  {
    forall u | u in before ensures RoomFor(lim, s, e, u, Occurrences(before, u)) {
      assert RoomFor(lim, s, e, u, Occurrences(before + [t], u));
    }
  }

  lemma RoomForLast(lim: Limits, s: System, mid: System, e: Ending, before: seq<Tag>, t: Tag)
    requires HasRoom(lim, s, e, before + [t]) && Played(s, mid, e, before)
    ensures TallyOf(mid.books, t).waiting == 0
    ensures 0 <= TallyOf(mid.books, t).active < lim.activeCap && 0 <= TallyOf(mid.books, t).starving < lim.starvingCap
  {
    assert RoomFor(lim, s, e, t, Occurrences(before + [t], t));
    assert Grew(s, mid, e, t, Occurrences(before, t));
    assert Occurrences(before + [t], t) == Occurrences(before, t) + 1;
  }

  lemma OccursMore(before: seq<Tag>, t: Tag, u: Tag)
    ensures Occurrences(before + [t], u) == Occurrences(before, u) + if u == t then 1 else 0
  {
  }

  lemma GrewMore(s: System, mid: System, s': System, e: Ending, before: seq<Tag>, t: Tag, u: Tag)
    requires Grew(s, mid, e, u, Occurrences(before, u)) && OthersSame(mid.books, s'.books, t)
    requires TallyOf(mid.books, t).waiting == 0
    requires Counts(s'.books, t, TallyOf(mid.books, t).active + ActiveLeft(e, 1),
                    TallyOf(mid.books, t).starving + StarvingLeft(e, 1))
    ensures Grew(s, s', e, u, Occurrences(before + [t], u))
  {
    OccursMore(before, t, u);
    if u != t {
      assert SameTally(mid.books, s'.books, u);
    }
  }

  lemma PlayedMore(s: System, mid: System, s': System, e: Ending, before: seq<Tag>, t: Tag)
    requires Played(s, mid, e, before) && OthersSame(mid.books, s'.books, t) && TallyOf(mid.books, t).waiting == 0
    requires Counts(s'.books, t, TallyOf(mid.books, t).active + ActiveLeft(e, 1),
                    TallyOf(mid.books, t).starving + StarvingLeft(e, 1))
    requires s'.files == mid.files + [Ended(e, t)] && s'.queue == mid.queue + Posts(e, t)
    ensures Played(s, s', e, before + [t])
  {
    forall u ensures Grew(s, s', e, u, Occurrences(before + [t], u)) {
      assert Grew(s, mid, e, u, Occurrences(before, u));
      GrewMore(s, mid, s', e, before, t, u);
    }
    SumAppend(mid.files, Ended(e, t), ActiveUnits());
    SumAppend(mid.files, Ended(e, t), Unsent());
  }

  /** Every hook that holds an event sends it. */
  lemma {:induction false} Flush(lim: Limits, tags: set<Tag>, steps: seq<Step>, s: System, unsent: nat)
    returns (steps': seq<Step>, s': System)
    requires Reaches(lim, tags, steps, s) && IsOpen(s) && NoneAtWork(s) && Sum(s.files, Unsent()) == unsent
    requires Busy(s) <= lim.workerCount
    ensures Reaches(lim, tags, steps', s') && IsOpen(s') && NoneAtWork(s') && s'.books == s.books
    ensures Sum(s'.files, Unsent()) == 0 && Busy(s') == 0 && |s'.queue| == |s.queue| + unsent
    decreases unsent
  {
    if unsent == 0 {
      steps', s' := steps, s;
      NothingUnsentNobodyBusy(s);
    } else {
      var i := PositiveSumHasTerm(s.files, Unsent());
      var step := if s.files[i].firstByteHeld then SendFirstByte(i, true) else SendDone(i, true);
      var f := if s.files[i].firstByteHeld then s.files[i].(firstByteHeld := false) else s.files[i].(doneHeld := None);
      SumUpdate(s.files, i, f, Unsent());
      SumUpdate(s.files, i, f, ActiveUnits());
      assert Apply(s, step).files == s.files[i := f];
      var mid;
      steps', mid := Go(lim, tags, steps, s, step);
      steps', s' := Flush(lim, tags, steps', mid, unsent - 1);
    }
  }

  lemma NothingUnsentNobodyBusy(s: System)
    requires NoneAtWork(s) && Sum(s.files, Unsent()) == 0
    ensures Busy(s) == 0
  {
    SumBoundsTerm(s.files, Unsent());
    forall i | 0 <= i < |s.files| ensures ActiveUnits()(s.files[i]) == 0 {
      assert Unsent()(s.files[i]) <= 0;
    }
    SumOfZeros(s.files, ActiveUnits());
  }

  function Least(a: int, b: int): int {
    if a <= b then a else b
  }

  /** Late first bytes where the starving cap is the larger, early ones, as far as the
      pool goes, where the active cap is; and then as many transfers as the smaller cap
      allows to every tag. */
  function LatePerTag(lim: Limits): nat
    requires lim.Valid()
  {
    if lim.starvingCap > lim.activeCap then lim.starvingCap - lim.activeCap else 0
  }

  function EarlyPerTag(lim: Limits): nat
    requires lim.Valid()
  {
    if lim.activeCap > lim.starvingCap then lim.activeCap - lim.starvingCap else 0
  }

  function EarlyInAll(lim: Limits, n: nat): nat
    requires lim.Valid()
  {
    Least(Each(n, EarlyPerTag(lim)), lim.workerCount)
  }

  predicate LeavesRoom(lim: Limits, s: System, t: Tag, room: int) {
    && TallyOf(s.books, t).waiting == 0
    && 0 <= TallyOf(s.books, t).active <= lim.activeCap - room
    && 0 <= TallyOf(s.books, t).starving <= lim.starvingCap - room
  }

  function TagSet(tags: seq<Tag>): set<Tag> {
    set t | t in tags
  }

  lemma PlayLates(lim: Limits, tags: seq<Tag>) returns (steps: seq<Step>, s: System)
    requires lim.Valid() && Distinct(tags)
    ensures Reaches(lim, TagSet(tags), steps, s) && IsOpen(s) && NoneAtWork(s)
    ensures Busy(s) == 0 && s.queue == [] && Sum(s.files, Unsent()) == Each(|tags|, LatePerTag(lim))
    ensures forall t :: t in tags ==> Counts(s.books, t, 0, LatePerTag(lim))
  {
    var plan, c := Times(tags, LatePerTag(lim)), LatePerTag(lim);
    var start := Init(lim);
    forall t ensures t in plan ==> t in tags && RoomFor(lim, start, Late, t, Occurrences(plan, t)) {
      OccursTimes(tags, c, t);
    }
    steps, s := PlayAll(lim, TagSet(tags), [], start, Late, plan);
    OccursTimes(tags, c, "");
    forall t | t in tags ensures Counts(s.books, t, 0, c) {
      OccursTimes(tags, c, t);
      assert Grew(start, s, Late, t, Occurrences(plan, t));
    }
  }

  /** As many early first bytes as the pool allows, no tag beyond its share. */
  lemma EarlyPlan(lim: Limits, tags: seq<Tag>) returns (plan: seq<Tag>)
    requires lim.Valid() && Distinct(tags)
    ensures |plan| == EarlyInAll(lim, |tags|)
    ensures forall t :: Occurrences(plan, t) <= EarlyPerTag(lim) && (t in plan ==> t in tags)
  {
    var all, c := Times(tags, EarlyPerTag(lim)), EarlyPerTag(lim);
    OccursTimes(tags, c, "");
    plan := all[..EarlyInAll(lim, |tags|)];
    forall t ensures Occurrences(plan, t) <= c && (t in plan ==> t in tags) {
      OccursTimes(tags, c, t);
      PrefixOccurs(all, |plan|, t);
    }
  }

  /** After the late and the early ones every tag has room for the smaller cap. */
  lemma EarlyLeavesRoom(lim: Limits, s: System, s': System, plan: seq<Tag>, t: Tag)
    requires lim.Valid() && Counts(s.books, t, 0, LatePerTag(lim)) && Occurrences(plan, t) <= EarlyPerTag(lim)
    requires Grew(s, s', Early, t, Occurrences(plan, t))
    ensures LeavesRoom(lim, s', t, Least(lim.activeCap, lim.starvingCap))
  {
  }

  lemma PlayEarlies(lim: Limits, tags: seq<Tag>) returns (steps: seq<Step>, s: System)
    requires lim.Valid() && Distinct(tags)
    ensures Reaches(lim, TagSet(tags), steps, s) && IsOpen(s) && NoneAtWork(s) && Busy(s) == 0
    ensures |s.queue| == Each(|tags|, LatePerTag(lim)) + EarlyInAll(lim, |tags|)
    ensures forall t :: t in tags ==> LeavesRoom(lim, s, t, Least(lim.activeCap, lim.starvingCap))
  {
    var late, early;
    var plan := EarlyPlan(lim, tags);
    steps, late := PlayLates(lim, tags);
    forall t | t in plan ensures RoomFor(lim, late, Early, t, Occurrences(plan, t)) {
      assert EarlyPerTag(lim) > 0 && Counts(late.books, t, 0, LatePerTag(lim));
    }
    steps, early := PlayAll(lim, TagSet(tags), steps, late, Early, plan);
    steps, s := Flush(lim, TagSet(tags), steps, early, Sum(early.files, Unsent()));
    forall t | t in tags ensures LeavesRoom(lim, s, t, Least(lim.activeCap, lim.starvingCap)) {
      EarlyLeavesRoom(lim, late, early, plan, t);
    }
  }

  lemma PeakIsTheSum(lim: Limits, n: nat)
    requires lim.Valid()
    ensures Peak(lim, n)
         == Each(n, LatePerTag(lim)) + EarlyInAll(lim, n) + 2 * Each(n, Least(lim.activeCap, lim.starvingCap))
  {
    EachPlus(n, LatePerTag(lim), lim.activeCap);
    EachPlus(n, EarlyPerTag(lim), lim.starvingCap);
    EachOfNone(n);
  }

  /** The peak is reached: with any tags there is a run, before `stop` and within the
      pool, at whose end so many events are in the channel, if it holds them all. */
  lemma PeakIsReached(lim: Limits, tags: seq<Tag>) returns (steps: seq<Step>, s: System)
    requires lim.Valid() && Distinct(tags)
    ensures Reaches(lim, TagSet(tags), steps, s) && IsOpen(s) && |s.queue| == Peak(lim, |tags|)
  {
    var m := Least(lim.activeCap, lim.starvingCap);
    var plan := Times(tags, m);
    var s1;
    steps, s1 := PlayEarlies(lim, tags);
    forall t ensures t in plan ==> t in tags && RoomFor(lim, s1, Full, t, Occurrences(plan, t)) {
      OccursTimes(tags, m, t);
    }
    steps, s := PlayAll(lim, TagSet(tags), steps, s1, Full, plan);
    OccursTimes(tags, m, "");
    PeakIsTheSum(lim, |tags|);
  }

  // ----- A full buffer -----

  predicate HoldsEvent(f: Transfer) {
    f.firstByteHeld || f.doneHeld.Some?
  }

  /** A hook has an event to send and the channel is full, with `stop` still open. */
  ghost predicate FindsNoRoom(s: System) {
    && !s.stopClosed && |s.queue| >= EventBuffer(s.lim)
    && exists i :: 0 <= i < |s.files| && HoldsEvent(s.files[i])
  }

  /** The channel never holds more than it can. */
  ghost predicate InBuffer(lim: Limits, steps: seq<Step>)
    requires Run(lim, steps).Some?
  {
    |Run(lim, steps).value.queue| <= EventBuffer(lim) && (steps != [] ==> InBuffer(lim, steps[..|steps| - 1]))
  }

  /** A run the program can take, over the given tags, that ends with a hook blocked. */
  ghost predicate Blocks(lim: Limits, tags: set<Tag>, steps: seq<Step>) {
    && Run(lim, steps).Some? && InPool(lim, steps) && InBuffer(lim, steps) && OnlyTags(steps, tags)
    && FindsNoRoom(Run(lim, steps).value)
  }

  lemma OverflowIsBlocked(s: System, step: Step)
    requires Enabled(s, step) && !Apply(s, step).stopClosed && |s.queue| <= EventBuffer(s.lim) < |Apply(s, step).queue|
    ensures FindsNoRoom(s)
  {
    StopStays(s, step);
    assert step.SendFirstByte? || step.SendDone?;
    assert HoldsEvent(s.files[step.id]);
  }

  /** Where the channel would first hold too much, a hook finds it full. */
  lemma {:induction false} FirstOverflow(lim: Limits, tags: set<Tag>, steps: seq<Step>) returns (k: nat)
    requires lim.Valid() && Run(lim, steps).Some? && InPool(lim, steps) && OnlyTags(steps, tags)
    requires !Run(lim, steps).value.stopClosed && !InBuffer(lim, steps)
    ensures k <= |steps| && Blocks(lim, tags, steps[..k])
  {
    var n := |steps| - 1;
    var s := Run(lim, steps[..n]).value;
    StopStays(s, steps[n]);
    if InBuffer(lim, steps[..n]) {
      k := n;
      RunKeepsOrders(lim, steps[..n]);
      OverflowIsBlocked(s, steps[n]);
    } else {
      k := FirstOverflow(lim, tags, steps[..n]);
      assert steps[..n][..k] == steps[..k];
    }
  }

  predicate WithinTags(s: System, tags: set<Tag>) {
    && s.books.tags.Keys <= tags
    && (forall i :: 0 <= i < |s.files| ==> s.files[i].tag in tags)
    && (forall i :: 0 <= i < |s.queue| ==> s.queue[i].tag in tags)
  }

  lemma StepKeepsTags(s: System, step: Step, tags: set<Tag>)
    requires Enabled(s, step) && WithinTags(s, tags) && (step.SubmitFile? ==> step.tag in tags)
    ensures WithinTags(Apply(s, step), tags)
  {
  }

  lemma {:induction false} RunKeepsTags(lim: Limits, steps: seq<Step>, tags: set<Tag>)
    requires Run(lim, steps).Some? && OnlyTags(steps, tags)
    ensures WithinTags(Run(lim, steps).value, tags)
  {
    if steps != [] {
      RunKeepsTags(lim, steps[..|steps| - 1], tags);
      StepKeepsTags(Run(lim, steps[..|steps| - 1]).value, steps[|steps| - 1], tags);
    }
  }

  lemma {:induction false} EachGrows(m: nat, n: nat, c: nat)
    requires m <= n
    ensures Each(m, c) <= Each(n, c)
  {
    if m < n {
      EachGrows(m, n - 1, c);
    }
  }

  lemma PeakGrows(lim: Limits, m: nat, n: nat)
    requires lim.Valid() && m <= n
    ensures Peak(lim, m) <= Peak(lim, n)
  {
    EachGrows(m, n, lim.starvingCap);
    EachGrows(m, n, lim.activeCap);
  }

  /** A hook that finds no room is one event more. */
  lemma OneMoreOnTheWay(s: System)
    requires FindsNoRoom(s)
    ensures OnTheWay(s) > EventBuffer(s.lim)
  {
    var i :| 0 <= i < |s.files| && HoldsEvent(s.files[i]);
    SumBoundsTerm(s.files, Unsent());
    assert Unsent()(s.files[i]) >= 1;
  }

  lemma BlockedIsOverPeakHere(lim: Limits, steps: seq<Step>)
    requires lim.Valid() && Run(lim, steps).Some? && InPool(lim, steps) && FindsNoRoom(Run(lim, steps).value)
    ensures Peak(lim, |Run(lim, steps).value.books.tags|) > EventBuffer(lim)
  {
    RunKeepsOrders(lim, steps);
    EventsWithinPeak(lim, steps);
    OneMoreOnTheWay(Run(lim, steps).value);
  }

  /** In every run within the pool, while the peak for the tags with entries fits into
      the channel, a hook that has an event to send finds room for it. */
  lemma HooksFindRoom(lim: Limits, steps: seq<Step>)
    requires lim.Valid() && Run(lim, steps).Some? && InPool(lim, steps)
    requires Peak(lim, |Run(lim, steps).value.books.tags|) <= EventBuffer(lim)
    ensures !FindsNoRoom(Run(lim, steps).value)
  {
    if FindsNoRoom(Run(lim, steps).value) {
      BlockedIsOverPeakHere(lim, steps);
      assert false;
    }
  }

  lemma BlockedIsOverPeak(lim: Limits, tags: set<Tag>, steps: seq<Step>)
    requires lim.Valid() && Blocks(lim, tags, steps)
    ensures Peak(lim, |tags|) > EventBuffer(lim)
  {
    var s := Run(lim, steps).value;
    BlockedIsOverPeakHere(lim, steps);
    RunKeepsTags(lim, steps, tags);
    SubsetIsSmaller(s.books.tags.Keys, tags);
    assert |s.books.tags| == |s.books.tags.Keys|;
    PeakGrows(lim, |s.books.tags|, |tags|);
  }

  lemma {:induction false} SubsetIsSmaller(a: set<Tag>, b: set<Tag>)
    requires a <= b
    ensures |a| <= |b|
  {
    if a != {} {
      var t :| t in a;
      SubsetIsSmaller(a - {t}, b - {t});
    }
  }

  // ----- Theorem -----

  ghost predicate CanBlock(lim: Limits, n: nat) {
    exists tags: set<Tag>, steps: seq<Step> :: |tags| <= n && Blocks(lim, tags, steps)
  }

  function Name(n: nat): Tag {
    seq(n, i => 'x')
  }

  function Names(n: nat): seq<Tag> {
    seq(n, (i: nat) => Name(i))
  }

  lemma NamesDiffer(n: nat)
    ensures |Names(n)| == n && Distinct(Names(n))
  {
    forall i, j | 0 <= i < j < n ensures Names(n)[i] != Names(n)[j] {
      assert |Names(n)[i]| == i && |Names(n)[j]| == j;
    }
  }

  lemma {:induction false} DistinctTags(tags: seq<Tag>)
    requires Distinct(tags)
    ensures |TagSet(tags)| == |tags|
  {
    if tags != [] {
      var n := |tags| - 1;
      DistinctTags(tags[..n]);
      assert TagSet(tags) == TagSet(tags[..n]) + {tags[n]};
    }
  }

  /** With files on at most `n` tags a hook can block on a full channel if and only if the
      peak for `n` tags exceeds the channel's capacity, which is 256 or twice the pool,
      whichever is more. */
  lemma HooksBlockExactlyWhen(lim: Limits, n: nat)
    requires lim.Valid()
    ensures CanBlock(lim, n) <==> Peak(lim, n) > 256 && Peak(lim, n) > 2 * lim.workerCount
  {
    if CanBlock(lim, n) {
      var tags: set<Tag>, steps: seq<Step> :| |tags| <= n && Blocks(lim, tags, steps);
      BlockedIsOverPeak(lim, tags, steps);
      PeakGrows(lim, |tags|, n);
    }
    if Peak(lim, n) > EventBuffer(lim) {
      NamesDiffer(n);
      DistinctTags(Names(n));
      var steps, s := PeakIsReached(lim, Names(n));
      var k := FirstOverflow(lim, TagSet(Names(n)), steps);
    }
  }

  /** A single tag always fits, whatever the caps: what the capacity was chosen for. From
      more tags on than half the capacity, a hook can block under any caps. */
  lemma OneTagFitsManyDoNot(lim: Limits, n: nat)
    requires lim.Valid()
    ensures Peak(lim, 1) == lim.starvingCap + lim.activeCap <= EventBuffer(lim) && !CanBlock(lim, 1)
    ensures Peak(lim, n) >= 2 * n
    ensures n > 128 && n > lim.workerCount ==> CanBlock(lim, n)
    ensures lim.workerCount == 1 ==> Peak(lim, n) == 2 * n && (CanBlock(lim, n) <==> n > 128)
  {
    HooksBlockExactlyWhen(lim, 1);
    HooksBlockExactlyWhen(lim, n);
    EachIsTimes(1, lim.starvingCap);
    EachIsTimes(1, lim.activeCap);
    EachAtLeast(n, lim.starvingCap);
    EachAtLeast(n, lim.activeCap);
  }
}
