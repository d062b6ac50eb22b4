/** What every run of the scheduler keeps, and what follows from it. */
module SchedulerSafety {
  import opened Collections
  import opened SchedulerBooks
  import opened SchedulerRuns

  lemma SharesNotNegative(s: System, t: Tag)
    ensures Sum(s.files, ActiveShare(t)) >= 0 && Sum(s.files, StarvingShare(t)) >= 0
    ensures Sum(s.queue, DoneCredit(t)) >= 0 && Sum(s.queue, StarvingCredit(t)) >= 0
    ensures Sum(s.lost, DoneCredit(t)) >= 0 && Sum(s.lost, StarvingCredit(t)) >= 0
  {
    SumBoundsTerm(s.files, ActiveShare(t));
    SumBoundsTerm(s.files, StarvingShare(t));
    SumBoundsTerm(s.queue, DoneCredit(t));
    SumBoundsTerm(s.queue, StarvingCredit(t));
    SumBoundsTerm(s.lost, DoneCredit(t));
    SumBoundsTerm(s.lost, StarvingCredit(t));
  }

  /** The next event to be handled always finds the counters it decrements positive. */
  lemma GuardsNeverSuppress(s: System)
    requires HooksValid(s) && LedgerBalances(s) && s.queue != []
    ensures s.queue[0].kind == Done ==> At(s.books.tags, s.queue[0].tag).active > 0
    ensures s.queue[0].kind == FirstByte || s.queue[0].stillStarving ==>
              At(s.books.tags, s.queue[0].tag).starving > 0
  {
    var t := s.queue[0].tag;
    SharesNotNegative(s, t);
    SumBoundsTerm(s.queue, DoneCredit(t));
    SumBoundsTerm(s.queue, StarvingCredit(t));
    assert DoneCredit(t)(s.queue[0]) <= Sum(s.queue, DoneCredit(t));
    assert StarvingCredit(t)(s.queue[0]) <= Sum(s.queue, StarvingCredit(t));
  }

  lemma FileChange(s: System, id: nat, f: Transfer, t: Tag)
    requires id < |s.files|
    ensures ActiveOwed(s.(files := s.files[id := f]), t)
         == ActiveOwed(s, t) - ActiveShare(t)(s.files[id]) + ActiveShare(t)(f)
    ensures StarvingOwed(s.(files := s.files[id := f]), t)
         == StarvingOwed(s, t) - StarvingShare(t)(s.files[id]) + StarvingShare(t)(f)
  {
    SumUpdate(s.files, id, f, ActiveShare(t));
    SumUpdate(s.files, id, f, StarvingShare(t));
  }

  lemma EventPosted(s: System, e: Event, delivered: bool, t: Tag)
    ensures ActiveOwed(Posted(s, e, delivered), t) == ActiveOwed(s, t) + DoneCredit(t)(e)
    ensures StarvingOwed(Posted(s, e, delivered), t) == StarvingOwed(s, t) + StarvingCredit(t)(e)
  {
    SumAppend(s.queue, e, DoneCredit(t));
    SumAppend(s.queue, e, StarvingCredit(t));
    SumAppend(s.lost, e, DoneCredit(t));
    SumAppend(s.lost, e, StarvingCredit(t));
  }

  // ----- Steps of the hooks: the books and the logs stay as they are -----

  /** What the queue and log invariants need to know about a change of the transfers. */
  ghost predicate SameFates(files: seq<Transfer>, files': seq<Transfer>) {
    && |files| == |files'|
    && forall i :: 0 <= i < |files| ==>
         && files[i].tag == files'[i].tag
         && files[i].WasAdmitted() == files'[i].WasAdmitted()
         && files[i].WasDispatched() == files'[i].WasDispatched()
         && (files[i].phase == Dropped) == (files'[i].phase == Dropped)
         && (files[i].phase == Queued) == (files'[i].phase == Queued)
  }

  lemma OrderFrame(s: System, s': System)
    requires OrderValid(s)
    requires s'.admitted == s.admitted && s'.dispatched == s.dispatched && s'.dropped == s.dropped
    requires forall t :: At(s'.books.tags, t).fifo == At(s.books.tags, t).fifo
    ensures OrderValid(s')
  {
    forall t ensures OrderValidOn(s', t) {
      assert OrderValidOn(s, t);
    }
  }

  lemma HookFrame(s: System, s': System)
    requires Invariant(s) && SameFates(s.files, s'.files)
    requires s' == s.(files := s'.files, queue := s'.queue, lost := s'.lost)
    requires HooksValid(s')
    requires forall t :: ActiveOwed(s', t) == ActiveOwed(s, t) && StarvingOwed(s', t) == StarvingOwed(s, t)
    ensures Invariant(s')
  {
    OrderFrame(s, s');
    forall id | 0 <= id < |s.files| ensures Ticket(s, id) == Ticket(s', id) {}
  }

  lemma FirstByteClaimOwesSame(s: System, id: nat, t: Tag)
    requires id < |s.files| && TransferValid(s.files[id]) && s.files[id].WasDispatched()
    ensures ActiveOwed(AfterFirstByteClaim(s, id), t) == ActiveOwed(s, t)
    ensures StarvingOwed(AfterFirstByteClaim(s, id), t) == StarvingOwed(s, t)
  {
    var f := s.files[id];
    if !f.fired {
      FileChange(s, id, f.(fired := true, firstByteHeld := true), t);
    }
  }

  lemma FirstByteClaimKeeps(s: System, id: nat)
    requires Invariant(s) && Enabled(s, ClaimFirstByte(id))
    ensures Invariant(AfterFirstByteClaim(s, id))
  {
    forall t
      ensures ActiveOwed(AfterFirstByteClaim(s, id), t) == ActiveOwed(s, t)
      ensures StarvingOwed(AfterFirstByteClaim(s, id), t) == StarvingOwed(s, t)
    {
      FirstByteClaimOwesSame(s, id, t);
    }
    HookFrame(s, AfterFirstByteClaim(s, id));
  }

  lemma FirstByteSendPaysOver(f: Transfer, t: Tag)
    requires TransferValid(f) && f.firstByteHeld
    ensures ActiveShare(t)(f)
         == ActiveShare(t)(f.(firstByteHeld := false)) + DoneCredit(t)(Event(FirstByte, f.tag, false))
    ensures StarvingShare(t)(f)
         == StarvingShare(t)(f.(firstByteHeld := false)) + StarvingCredit(t)(Event(FirstByte, f.tag, false))
  {
  }

  lemma FirstByteSendOwesSame(s: System, id: nat, delivered: bool, t: Tag)
    requires id < |s.files| && TransferValid(s.files[id]) && s.files[id].firstByteHeld
    ensures ActiveOwed(AfterFirstByteSend(s, id, delivered), t) == ActiveOwed(s, t)
    ensures StarvingOwed(AfterFirstByteSend(s, id, delivered), t) == StarvingOwed(s, t)
  {
    var f := s.files[id];
    var mid := s.(files := s.files[id := f.(firstByteHeld := false)]);
    FirstByteSendPaysOver(f, t);
    FileChange(s, id, f.(firstByteHeld := false), t);
    EventPosted(mid, Event(FirstByte, f.tag, false), delivered, t);
  }

  lemma FirstByteSendKeeps(s: System, id: nat, delivered: bool)
    requires Invariant(s) && Enabled(s, SendFirstByte(id, delivered))
    ensures Invariant(AfterFirstByteSend(s, id, delivered))
  {
    forall t
      ensures ActiveOwed(AfterFirstByteSend(s, id, delivered), t) == ActiveOwed(s, t)
      ensures StarvingOwed(AfterFirstByteSend(s, id, delivered), t) == StarvingOwed(s, t)
    {
      FirstByteSendOwesSame(s, id, delivered, t);
    }
    HookFrame(s, AfterFirstByteSend(s, id, delivered));
  }

  lemma DoneClaimKeeps(s: System, id: nat)
    requires Invariant(s) && Enabled(s, ClaimDone(id))
    ensures Invariant(AfterDoneClaim(s, id))
  {
    var s' := AfterDoneClaim(s, id);
    forall t ensures ActiveOwed(s', t) == ActiveOwed(s, t) && StarvingOwed(s', t) == StarvingOwed(s, t) {
      FileChange(s, id, s'.files[id], t);
    }
    HookFrame(s, s');
  }

  lemma DoneSendPaysOver(f: Transfer, t: Tag)
    requires TransferValid(f) && f.doneHeld.Some?
    ensures ActiveShare(t)(f)
         == ActiveShare(t)(f.(doneHeld := None)) + DoneCredit(t)(Event(Done, f.tag, f.doneHeld.value))
    ensures StarvingShare(t)(f)
         == StarvingShare(t)(f.(doneHeld := None)) + StarvingCredit(t)(Event(Done, f.tag, f.doneHeld.value))
  {
  }

  lemma DoneSendOwesSame(s: System, id: nat, delivered: bool, t: Tag)
    requires id < |s.files| && TransferValid(s.files[id]) && s.files[id].doneHeld.Some?
    ensures ActiveOwed(AfterDoneSend(s, id, delivered), t) == ActiveOwed(s, t)
    ensures StarvingOwed(AfterDoneSend(s, id, delivered), t) == StarvingOwed(s, t)
  {
    var f := s.files[id];
    var mid := s.(files := s.files[id := f.(doneHeld := None)]);
    DoneSendPaysOver(f, t);
    FileChange(s, id, f.(doneHeld := None), t);
    EventPosted(mid, Event(Done, f.tag, f.doneHeld.value), delivered, t);
  }

  lemma DoneSendKeeps(s: System, id: nat, delivered: bool)
    requires Invariant(s) && Enabled(s, SendDone(id, delivered))
    ensures Invariant(AfterDoneSend(s, id, delivered))
  {
    forall t
      ensures ActiveOwed(AfterDoneSend(s, id, delivered), t) == ActiveOwed(s, t)
      ensures StarvingOwed(AfterDoneSend(s, id, delivered), t) == StarvingOwed(s, t)
    {
      DoneSendOwesSame(s, id, delivered, t);
    }
    HookFrame(s, AfterDoneSend(s, id, delivered));
  }

  // ----- Submission -----

  lemma SubmitKeeps(s: System, tag: Tag)
    requires Invariant(s)
    ensures Invariant(s.(files := s.files + [Submitted(tag)]))
  {
    var s' := s.(files := s.files + [Submitted(tag)]);
    forall t ensures ActiveOwed(s', t) == ActiveOwed(s, t) && StarvingOwed(s', t) == StarvingOwed(s, t) {
      SumAppend(s.files, Submitted(tag), ActiveShare(t));
      SumAppend(s.files, Submitted(tag), StarvingShare(t));
    }
    OrderFrame(s, s');
    forall id | 0 <= id < |s.files| ensures Ticket(s, id) == Ticket(s', id) {}
    var ticket := Ticket(s', |s.files|);
    assert Occurrences(s.admitted, ticket) == 0 by {
      assert ticket !in s.admitted;
    }
    assert Occurrences(s.dispatched, ticket) == 0 by {
      if ticket in s.dispatched { DispatchedWasAdmitted(s, ticket); }
    }
  }

  lemma DispatchedWasAdmitted(s: System, f: File)
    requires OrderValid(s) && f in s.dispatched
    ensures f in s.admitted
  {
    var t := f.tag;
    SelectKeepsOccurrences(s.admitted, OnTag(t), f);
    SelectKeepsOccurrences(s.dispatched, OnTag(t), f);
    assert OrderValidOn(s, t);
    assert Occurrences(s.dispatched, f) > 0;
  }

  lemma AbandonKeeps(s: System, id: nat)
    requires Invariant(s) && Enabled(s, AbandonSubmit(id))
    ensures Invariant(s.(files := WithPhase(s.files, id, Refused)))
  {
    var s' := s.(files := WithPhase(s.files, id, Refused));
    forall t ensures ActiveOwed(s', t) == ActiveOwed(s, t) && StarvingOwed(s', t) == StarvingOwed(s, t) {
      FileChange(s, id, s'.files[id], t);
    }
    HookFrame(s, s');
  }

  // ----- Admission -----

  /** Admission changes one tag's queue, by one entry at its end, or none. */
  lemma AdmitQueues(lim: Limits, b: Books, f: File, now: int, t: Tag)
    ensures var (b', shed) := Admit(lim, b, f, now);
      && At(b'.tags, t).fifo == (if shed.None? && t == f.tag then At(b.tags, t).fifo + [f] else At(b.tags, t).fifo)
      && At(b'.tags, t).active == At(b.tags, t).active
      && At(b'.tags, t).starving == At(b.tags, t).starving
  {
  }

  /** A transfer no worker had yet owes nothing in any phase before that. */
  lemma UndispatchedOwesSame(s: System, id: nat, phase: Phase, t: Tag)
    requires id < |s.files| && TransferValid(s.files[id]) && !s.files[id].WasDispatched()
    requires phase == Queued || phase == Refused
    ensures ActiveOwed(s.(files := WithPhase(s.files, id, phase)), t) == ActiveOwed(s, t)
    ensures StarvingOwed(s.(files := WithPhase(s.files, id, phase)), t) == StarvingOwed(s, t)
  {
    var f := s.files[id].(phase := phase);
    assert ActiveShare(t)(f) == ActiveShare(t)(s.files[id]) == 0;
    assert StarvingShare(t)(f) == StarvingShare(t)(s.files[id]) == 0;
    FileChange(s, id, f, t);
  }

  lemma AdmitLedgerOn(s: System, id: nat, now: int, t: Tag)
    requires InPhase(s, id, Submitting) && TransferValid(s.files[id])
    requires At(s.books.tags, t).active == ActiveOwed(s, t) && At(s.books.tags, t).starving == StarvingOwed(s, t)
    ensures var s' := AfterAdmit(s, id, now);
      At(s'.books.tags, t).active == ActiveOwed(s', t) && At(s'.books.tags, t).starving == StarvingOwed(s', t)
  {
    AdmitQueues(s.lim, s.books, Ticket(s, id), now, t);
    UndispatchedOwesSame(s, id, Queued, t);
    UndispatchedOwesSame(s, id, Refused, t);
  }

  lemma AdmitLedger(s: System, id: nat, now: int)
    requires HooksValid(s) && LedgerBalances(s) && InPhase(s, id, Submitting)
    ensures LedgerBalances(AfterAdmit(s, id, now))
  {
    var s' := AfterAdmit(s, id, now);
    forall t
      ensures At(s'.books.tags, t).active == ActiveOwed(s', t)
      ensures At(s'.books.tags, t).starving == StarvingOwed(s', t)
    {
      AdmitLedgerOn(s, id, now, t);
    }
  }

  lemma AdmitOrderOn(s: System, id: nat, now: int, t: Tag)
    requires OrderValidOn(s, t) && s.dropped == [] && id < |s.files|
    ensures OrderValidOn(AfterAdmit(s, id, now), t)
  {
    var f := Ticket(s, id);
    var s' := AfterAdmit(s, id, now);
    AdmitQueues(s.lim, s.books, f, now, t);
    SelectAppend(s.admitted, f, OnTag(t));
    var before, fifo := Select(s.dispatched, OnTag(t)), At(s.books.tags, t).fifo;
    assert Select(s.dropped, OnTag(t)) == [];
    NothingBehind(before, fifo);
    NothingBehind(before, At(s'.books.tags, t).fifo);
    assert before + (fifo + [f]) == before + fifo + [f];
  }

  lemma NothingBehind<T>(before: seq<T>, fifo: seq<T>)
    ensures before + fifo + [] == before + fifo
  {
  }

  lemma AdmitOrder(s: System, id: nat, now: int)
    requires OrderValid(s) && s.dropped == [] && id < |s.files|
    ensures OrderValid(AfterAdmit(s, id, now))
  {
    forall t ensures OrderValidOn(AfterAdmit(s, id, now), t) {
      AdmitOrderOn(s, id, now, t);
    }
  }

  lemma AdmitFifos(s: System, id: nat, now: int)
    requires FifosValid(s.books.tags) && id < |s.files|
    ensures FifosValid(AfterAdmit(s, id, now).books.tags)
  {
  }

  lemma AdmitLogs(s: System, id: nat, now: int)
    requires LogsValid(s) && !s.exited && InPhase(s, id, Submitting)
    ensures LogsValid(AfterAdmit(s, id, now))
  {
    var s' := AfterAdmit(s, id, now);
    var f := Ticket(s, id);
    forall i | 0 <= i < |s.files|
      ensures Ticket(s, i) == Ticket(s', i)
      ensures Occurrences(s'.admitted, Ticket(s', i)) == (if s'.files[i].WasAdmitted() then 1 else 0)
    {
      assert Occurrences(s.admitted + [f], Ticket(s, i))
          == Occurrences(s.admitted, Ticket(s, i)) + (if i == id then 1 else 0);
    }
  }

  lemma AdmitHooks(s: System, id: nat, now: int)
    requires HooksValid(s) && InPhase(s, id, Submitting)
    ensures HooksValid(AfterAdmit(s, id, now))
  {
  }

  lemma AdmitCounters(s: System, id: nat, now: int)
    requires BooksValid(s.lim, s.books) && id < |s.files|
    ensures BooksValid(s.lim, AfterAdmit(s, id, now).books)
  {
  }

  lemma AdmitTotals(s: System, id: nat, now: int)
    requires TotalsValid(s) && id < |s.files|
    ensures TotalsValid(AfterAdmit(s, id, now))
  {
    var s' := AfterAdmit(s, id, now);
    var tag := s.files[id].tag;
    MapTotalUpdate(s.books.tags, tag, s'.books.tags[tag], FifoLength());
  }

  /** The tags with queued work after an admission. */
  lemma AdmitNonEmpty(lim: Limits, b: Books, f: File, now: int)
    ensures var (b', shed) := Admit(lim, b, f, now);
      NonEmpty(b'.tags) == if shed.None? then NonEmpty(b.tags) + {f.tag} else NonEmpty(b.tags)
  {
    var b' := Admit(lim, b, f, now).0;
    forall t ensures t in NonEmpty(b'.tags) <==> |At(b'.tags, t).fifo| > 0 {}
    forall t ensures t in NonEmpty(b.tags) <==> |At(b.tags, t).fifo| > 0 {}
    forall t
      ensures At(b'.tags, t).fifo
           == At(b.tags, t).fifo + if Admit(lim, b, f, now).1.None? && t == f.tag then [f] else []
    {
      AdmitQueues(lim, b, f, now, t);
    }
  }

  lemma AdmitPoolBound(lim: Limits, b: Books, f: File, now: int)
    requires b.pending == MapTotal(b.tags, FifoLength()) && BoundsHold(lim, b) && lim.pendingSize > 0
    ensures var b' := Admit(lim, b, f, now).0;
      NonEmpty(b'.tags) != {} ==> b'.pending <= lim.pendingSize + |NonEmpty(b'.tags)| - 1
  {
    var (b', shed) := Admit(lim, b, f, now);
    AdmitNonEmpty(lim, b, f, now);
    if shed.None? {
      if f.tag in NonEmpty(b.tags) {
        assert NonEmpty(b'.tags) == NonEmpty(b.tags);
        assert |NonEmpty(b.tags)| >= 1;
        assert b.pending < lim.pendingSize;
      } else {
        assert |NonEmpty(b'.tags)| == |NonEmpty(b.tags)| + 1;
        if NonEmpty(b.tags) == {} {
          AllEmptyTotal(b.tags);
        }
      }
      assert b'.pending == b.pending + 1;
    } else {
      assert b'.pending == b.pending;
    }
  }

  lemma AdmitTagBound(lim: Limits, b: Books, f: File, now: int)
    requires BoundsHold(lim, b) && lim.perTagPendingSize > 0
    ensures var b' := Admit(lim, b, f, now).0; forall t :: t in b'.tags ==> |b'.tags[t].fifo| <= lim.perTagPendingSize
  {
    var b' := Admit(lim, b, f, now).0;
    forall t | t in b'.tags ensures |b'.tags[t].fifo| <= lim.perTagPendingSize {
      assert t != f.tag ==> t in b.tags && b'.tags[t] == b.tags[t];
    }
  }

  lemma AdmitBounds(lim: Limits, b: Books, f: File, now: int)
    requires b.pending == MapTotal(b.tags, FifoLength()) && BoundsHold(lim, b)
    ensures BoundsHold(lim, Admit(lim, b, f, now).0)
  {
    if lim.pendingSize > 0 {
      AdmitPoolBound(lim, b, f, now);
    }
    if lim.perTagPendingSize > 0 {
      AdmitTagBound(lim, b, f, now);
    }
  }

  lemma AllEmptyTotal(tags: map<Tag, TagState>)
    requires NonEmpty(tags) == {}
    ensures MapTotal(tags, FifoLength()) == 0
  {
    forall t | t in tags ensures |tags[t].fifo| == 0 {
      assert t !in NonEmpty(tags);
    }
    MapTotalAgrees(tags, map[], FifoLength());
  }

  lemma AdmitKeeps(s: System, id: nat, now: int)
    requires Invariant(s) && Enabled(s, AdmitFile(id, now))
    ensures Invariant(AfterAdmit(s, id, now))
  {
    AdmitLedger(s, id, now);
    AdmitOrder(s, id, now);
    AdmitFifos(s, id, now);
    AdmitLogs(s, id, now);
    AdmitHooks(s, id, now);
    AdmitCounters(s, id, now);
    AdmitTotals(s, id, now);
    AdmitBounds(s.lim, s.books, Ticket(s, id), now);
  }

  // ----- Dispatch -----

  /** The head of a FIFO is a queued transfer of that tag. */
  lemma HeadIsQueued(s: System, tag: Tag)
    requires FifosValid(s.books.tags) && OrderValid(s) && LogsValid(s) && !s.exited
    requires tag in s.books.tags && s.books.tags[tag].fifo != []
    ensures var head := s.books.tags[tag].fifo[0];
      Owns(s.files, head) && head.tag == tag && s.files[head.id].phase == Queued
  {
    var fifo := s.books.tags[tag].fifo;
    var head := fifo[0];
    assert head in fifo;
    assert At(s.books.tags, tag).fifo == fifo;
    var before := Select(s.dispatched, OnTag(tag));
    assert OrderValidOn(s, tag);
    assert Select(s.admitted, OnTag(tag)) == before + fifo;
    assert multiset(before + fifo)[head] == multiset(before)[head] + multiset(fifo)[head];
    SelectKeepsOccurrences(s.admitted, OnTag(tag), head);
    SelectKeepsOccurrences(s.dispatched, OnTag(tag), head);
    assert head in s.admitted;
    assert head == Ticket(s, head.id);
  }

  lemma DispatchLedger(s: System, tag: Tag, now: int)
    requires Invariant(s) && Enabled(s, DispatchHead(tag, now))
    ensures LedgerBalances(AfterDispatch(s, tag, now)) && HooksValid(AfterDispatch(s, tag, now))
  {
    var s' := AfterDispatch(s, tag, now);
    HeadIsQueued(s, tag);
    var head := s.books.tags[tag].fifo[0];
    forall t
      ensures At(s'.books.tags, t).active == ActiveOwed(s', t)
      ensures At(s'.books.tags, t).starving == StarvingOwed(s', t)
    {
      FileChange(s, head.id, s'.files[head.id], t);
      assert At(s.books.tags, t).active == ActiveOwed(s, t);
    }
  }

  lemma DispatchOrderOn(s: System, tag: Tag, now: int, t: Tag)
    requires tag in s.books.tags && s.books.tags[tag].fifo != [] && s.books.tags[tag].fifo[0].tag == tag
    requires OrderValidOn(s, t)
    ensures OrderValidOn(AfterDispatch(s, tag, now), t)
  {
    var fifo := s.books.tags[tag].fifo;
    var s' := AfterDispatch(s, tag, now);
    SelectAppend(s.dispatched, fifo[0], OnTag(t));
    var before, behind := Select(s.dispatched, OnTag(t)), Select(s.dropped, OnTag(t));
    if t == tag {
      HeadMovesOver(before, fifo, behind);
      assert At(s'.books.tags, t).fifo == fifo[1..];
    } else {
      assert At(s'.books.tags, t).fifo == At(s.books.tags, t).fifo;
    }
  }

  lemma HeadMovesOver<T>(before: seq<T>, fifo: seq<T>, behind: seq<T>)
    requires fifo != []
    ensures before + fifo + behind == before + [fifo[0]] + fifo[1..] + behind
  {
  }

  lemma DispatchOrder(s: System, tag: Tag, now: int)
    requires FifosValid(s.books.tags) && OrderValid(s)
    requires tag in s.books.tags && s.books.tags[tag].fifo != []
    ensures OrderValid(AfterDispatch(s, tag, now))
  {
    assert s.books.tags[tag].fifo[0] in s.books.tags[tag].fifo;
    forall t ensures OrderValidOn(AfterDispatch(s, tag, now), t) {
      DispatchOrderOn(s, tag, now, t);
    }
  }

  lemma DispatchFifos(s: System, tag: Tag, now: int)
    requires FifosValid(s.books.tags)
    requires tag in s.books.tags && s.books.tags[tag].fifo != []
    ensures FifosValid(AfterDispatch(s, tag, now).books.tags)
  {
  }

  lemma DispatchLogs(s: System, tag: Tag, now: int)
    requires Invariant(s) && Enabled(s, DispatchHead(tag, now))
    ensures LogsValid(AfterDispatch(s, tag, now))
  {
    var s' := AfterDispatch(s, tag, now);
    HeadIsQueued(s, tag);
    forall i | 0 <= i < |s.files| ensures Ticket(s, i) == Ticket(s', i) {}
  }

  lemma DispatchCounters(s: System, tag: Tag, now: int)
    requires BooksValid(s.lim, s.books) && Eligible(s.lim, s.books.tags, tag)
    ensures BooksValid(s.lim, AfterDispatch(s, tag, now).books)
  {
  }

  lemma DispatchTotals(s: System, tag: Tag, now: int)
    requires TotalsValid(s) && tag in s.books.tags && s.books.tags[tag].fifo != []
    ensures TotalsValid(AfterDispatch(s, tag, now))
  {
    var s' := AfterDispatch(s, tag, now);
    MapTotalUpdate(s.books.tags, tag, s'.books.tags[tag], FifoLength());
  }

  lemma DispatchBounds(s: System, tag: Tag, now: int)
    requires BoundsHold(s.lim, s.books) && tag in s.books.tags && s.books.tags[tag].fifo != []
    ensures BoundsHold(s.lim, AfterDispatch(s, tag, now).books)
  {
    var s' := AfterDispatch(s, tag, now);
    assert tag in NonEmpty(s.books.tags);
    if |s'.books.tags[tag].fifo| > 0 {
      assert NonEmpty(s'.books.tags) == NonEmpty(s.books.tags);
    } else {
      assert NonEmpty(s'.books.tags) == NonEmpty(s.books.tags) - {tag};
    }
  }

  lemma DispatchKeeps(s: System, tag: Tag, now: int)
    requires Invariant(s) && Enabled(s, DispatchHead(tag, now))
    ensures Invariant(AfterDispatch(s, tag, now))
  {
    DispatchLedger(s, tag, now);
    DispatchOrder(s, tag, now);
    DispatchFifos(s, tag, now);
    DispatchLogs(s, tag, now);
    DispatchCounters(s, tag, now);
    DispatchTotals(s, tag, now);
    DispatchBounds(s, tag, now);
  }

  // ----- Events, ticks and eviction: the queues stay as they are -----

  lemma SameFifos(tags: map<Tag, TagState>, tags': map<Tag, TagState>)
    requires forall t :: At(tags', t).fifo == At(tags, t).fifo
    ensures NonEmpty(tags) == NonEmpty(tags') && MapTotal(tags, FifoLength()) == MapTotal(tags', FifoLength())
    ensures FifosValid(tags) ==> FifosValid(tags')
    ensures forall t :: t in tags' ==> tags'[t].fifo == At(tags, t).fifo
  {
    forall t | t in tags' ensures tags'[t].fifo == At(tags, t).fifo {
      assert At(tags', t).fifo == At(tags, t).fifo;
    }
    forall t | t in tags ensures tags[t].fifo == At(tags', t).fifo {
      assert At(tags', t).fifo == At(tags, t).fifo;
    }
    TotalsAgree(tags, tags');
    assert NonEmpty(tags) == NonEmpty(tags');
  }

  /** What a change of the books must keep when no queue moves. */
  lemma BooksFrame(s: System, s': System)
    requires Invariant(s)
    requires s' == s.(books := s.books.(tags := s'.books.tags), queue := s'.queue)
    requires forall t :: At(s'.books.tags, t).fifo == At(s.books.tags, t).fifo
    requires HooksValid(s') && LedgerBalances(s') && BooksValid(s.lim, s'.books)
    ensures Invariant(s')
  {
    OrderFrame(s, s');
    SameFifos(s.books.tags, s'.books.tags);
  }

  lemma TotalsAgree(m: map<Tag, TagState>, n: map<Tag, TagState>)
    requires forall t :: At(m, t).fifo == At(n, t).fifo
    ensures MapTotal(m, FifoLength()) == MapTotal(n, FifoLength())
  {
    forall t | t in m ensures |m[t].fifo| == |At(n, t).fifo| {
      assert At(m, t).fifo == At(n, t).fifo;
    }
    forall t | t in n ensures |n[t].fifo| == |At(m, t).fifo| {
      assert At(m, t).fifo == At(n, t).fifo;
    }
    var both := map t | t in m && t in n :: m[t];
    MapTotalAgrees(m, both, FifoLength());
    MapTotalAgrees(n, both, FifoLength());
  }

  lemma HandleLedger(s: System, now: int)
    requires HooksValid(s) && LedgerBalances(s) && s.queue != []
    ensures HooksValid(AfterHandle(s, now)) && LedgerBalances(AfterHandle(s, now))
  {
    var s' := AfterHandle(s, now);
    GuardsNeverSuppress(s);
    assert s.queue[0] in s.queue + s.lost;
    forall e | e in s'.queue + s'.lost ensures EventValid(e) {
      assert e in s.queue + s.lost;
    }
    forall t
      ensures At(s'.books.tags, t).active == ActiveOwed(s', t)
      ensures At(s'.books.tags, t).starving == StarvingOwed(s', t)
    {
      SumHead(s.queue, DoneCredit(t));
      SumHead(s.queue, StarvingCredit(t));
      assert At(s.books.tags, t).active == ActiveOwed(s, t);
    }
  }

  lemma HandleCounters(lim: Limits, b: Books, e: Event, now: int)
    requires BooksValid(lim, b)
    ensures BooksValid(lim, Handle(b, e, now))
  {
  }

  lemma HandleKeeps(s: System, now: int)
    requires Invariant(s) && Enabled(s, HandleEvent(now))
    ensures Invariant(AfterHandle(s, now))
  {
    HandleLedger(s, now);
    HandleCounters(s.lim, s.books, s.queue[0], now);
    BooksFrame(s, AfterHandle(s, now));
  }

  lemma TickKeeps(s: System, alpha: real)
    requires Invariant(s) && Enabled(s, TickEma(alpha))
    ensures Invariant(s.(books := s.books.(tags := Tick(s.books.tags, alpha))))
  {
    var s' := s.(books := s.books.(tags := Tick(s.books.tags, alpha)));
    forall t | t in s.books.tags ensures CountersValid(s.lim, TickTag(s.books.tags[t], alpha)) {
      TickKeepsRange(s.lim, s.books.tags[t], alpha);
    }
    forall t
      ensures At(s'.books.tags, t).active == At(s.books.tags, t).active
      ensures At(s'.books.tags, t).starving == At(s.books.tags, t).starving
      ensures At(s'.books.tags, t).fifo == At(s.books.tags, t).fifo
    {
    }
    forall t
      ensures At(s'.books.tags, t).active == ActiveOwed(s', t)
      ensures At(s'.books.tags, t).starving == StarvingOwed(s', t)
    {
      assert At(s.books.tags, t).active == ActiveOwed(s, t);
    }
    BooksFrame(s, s');
  }

  lemma EvictKeeps(s: System, now: int)
    requires Invariant(s)
    ensures Invariant(s.(books := s.books.(tags := Evict(s.lim, s.books.tags, now))))
  {
    var s' := s.(books := s.books.(tags := Evict(s.lim, s.books.tags, now)));
    forall t
      ensures At(s'.books.tags, t).active == ActiveOwed(s', t)
      ensures At(s'.books.tags, t).starving == StarvingOwed(s', t)
    {
      assert At(s.books.tags, t).active == ActiveOwed(s, t);
      assert At(s.books.tags, t).starving == StarvingOwed(s, t);
    }
    BooksFrame(s, s');
  }

  // ----- Exit -----

  lemma {:induction false} DrainOnTag(order: seq<Tag>, tags: map<Tag, TagState>, t: Tag)
    requires FifosValid(tags)
    requires forall i, j :: 0 <= i < j < |order| ==> order[i] != order[j]
    ensures Select(DrainOrder(order, tags), OnTag(t)) == if t in order then At(tags, t).fifo else []
  {
    if order != [] {
      var n := |order| - 1;
      var last := order[n];
      DrainOnTag(order[..n], tags, t);
      SelectConcat(DrainOrder(order[..n], tags), At(tags, last).fifo, OnTag(t));
      if last == t {
        SelectAll(At(tags, last).fifo, OnTag(t));
        assert t !in order[..n];
      } else {
        SelectNone(At(tags, last).fifo, OnTag(t));
        assert t in order <==> t in order[..n];
      }
    }
  }

  lemma {:induction false} DrainLength(order: seq<Tag>, tags: map<Tag, TagState>)
    requires Enumerates(order, tags)
    ensures |DrainOrder(order, tags)| == MapTotal(tags, FifoLength())
  {
    if order == [] {
      assert tags == map[];
    } else {
      var n := |order| - 1;
      var last := order[n];
      var rest := tags - {last};
      forall t ensures t in rest <==> t in order[..n] {
        if t in order { var i :| 0 <= i < |order| && order[i] == t; }
      }
      DrainLength(order[..n], rest);
      DrainRest(order[..n], tags, rest);
      MapTotalRemove(tags, last, FifoLength());
    }
  }

  lemma {:induction false} DrainRest(order: seq<Tag>, m: map<Tag, TagState>, n: map<Tag, TagState>)
    requires forall t :: t in order ==> At(m, t) == At(n, t)
    ensures DrainOrder(order, m) == DrainOrder(order, n)
  {
    if order != [] {
      DrainRest(order[..|order| - 1], m, n);
    }
  }

  lemma ExitOrderOn(s: System, order: seq<Tag>, t: Tag)
    requires FifosValid(s.books.tags) && OrderValidOn(s, t) && s.dropped == [] && Enumerates(order, s.books.tags)
    ensures OrderValidOn(AfterExit(s, order), t)
  {
    var s' := AfterExit(s, order);
    assert s'.dropped == DrainOrder(order, s.books.tags);
    DrainOnTag(order, s.books.tags, t);
    assert Select(s'.dropped, OnTag(t)) == At(s.books.tags, t).fifo;
    assert At(s'.books.tags, t).fifo == [];
    DrainedKeepsOrder(Select(s.dispatched, OnTag(t)), At(s.books.tags, t).fifo);
  }

  lemma DrainedKeepsOrder<T>(before: seq<T>, fifo: seq<T>)
    ensures before + fifo + [] == before + [] + fifo
  {
  }

  lemma ExitOrder(s: System, order: seq<Tag>)
    requires Invariant(s) && Enabled(s, ExitLoop(order))
    ensures OrderValid(AfterExit(s, order)) && FifosValid(AfterExit(s, order).books.tags)
  {
    forall t ensures OrderValidOn(AfterExit(s, order), t) {
      assert OrderValidOn(s, t);
      ExitOrderOn(s, order, t);
    }
  }

  lemma ExitLedger(s: System, order: seq<Tag>)
    requires Invariant(s) && Enabled(s, ExitLoop(order))
    ensures LedgerBalances(AfterExit(s, order)) && HooksValid(AfterExit(s, order))
  {
    var s' := AfterExit(s, order);
    forall t
      ensures At(s'.books.tags, t).active == ActiveOwed(s', t)
      ensures At(s'.books.tags, t).starving == StarvingOwed(s', t)
    {
      SumPointwise(s.files, s'.files, ActiveShare(t));
      SumPointwise(s.files, s'.files, StarvingShare(t));
      assert At(s.books.tags, t).active == ActiveOwed(s, t);
    }
  }

  lemma ExitLogs(s: System, order: seq<Tag>)
    requires Invariant(s) && Enabled(s, ExitLoop(order))
    ensures LogsValid(AfterExit(s, order))
  {
    var s' := AfterExit(s, order);
    forall i | 0 <= i < |s.files| ensures Ticket(s, i) == Ticket(s', i) {}
  }

  lemma ExitCounters(lim: Limits, b: Books)
    requires BooksValid(lim, b)
    ensures BooksValid(lim, b.(tags := Emptied(b.tags), pending := 0))
  {
  }

  lemma ExitTotals(s: System, order: seq<Tag>)
    requires TotalsValid(s) && LogsValid(s) && BoundsHold(s.lim, s.books) && Enabled(s, ExitLoop(order))
    ensures TotalsValid(AfterExit(s, order)) && BoundsHold(s.lim, AfterExit(s, order).books)
  {
    var s' := AfterExit(s, order);
    DrainLength(order, s.books.tags);
    assert NonEmpty(s'.books.tags) == {};
    AllEmptyTotal(s'.books.tags);
  }

  lemma ExitKeeps(s: System, order: seq<Tag>)
    requires Invariant(s) && Enabled(s, ExitLoop(order))
    ensures Invariant(AfterExit(s, order))
  {
    ExitOrder(s, order);
    ExitLedger(s, order);
    ExitLogs(s, order);
    ExitCounters(s.lim, s.books);
    ExitTotals(s, order);
  }

  // ----- Runs -----

  lemma StopKeeps(s: System)
    requires Invariant(s)
    ensures Invariant(s.(stopClosed := true))
  {
    var s' := s.(stopClosed := true);
    forall t ensures ActiveOwed(s', t) == ActiveOwed(s, t) && StarvingOwed(s', t) == StarvingOwed(s, t) {}
    OrderFrame(s, s');
    forall id | 0 <= id < |s.files| ensures Ticket(s, id) == Ticket(s', id) {}
  }

  lemma StepKeeps(s: System, step: Step)
    requires Invariant(s) && Enabled(s, step)
    ensures Invariant(Apply(s, step))
  {
    match step
    case SubmitFile(tag) => SubmitKeeps(s, tag);
    case AdmitFile(id, now) => AdmitKeeps(s, id, now);
    case AbandonSubmit(id) => AbandonKeeps(s, id);
    case DispatchHead(tag, now) => DispatchKeeps(s, tag, now);
    case ClaimFirstByte(id) => FirstByteClaimKeeps(s, id);
    case SendFirstByte(id, delivered) => FirstByteSendKeeps(s, id, delivered);
    case ClaimDone(id) => DoneClaimKeeps(s, id);
    case SendDone(id, delivered) => DoneSendKeeps(s, id, delivered);
    case HandleEvent(now) => HandleKeeps(s, now);
    case TickEma(alpha) => TickKeeps(s, alpha);
    case EvictIdle(now) => EvictKeeps(s, now);
    case CloseStop => StopKeeps(s);
    case ExitLoop(order) => ExitKeeps(s, order);
  }

  /** Every state of every run keeps the whole invariant. */
  lemma {:induction false} RunKeepsInvariant(lim: Limits, steps: seq<Step>)
    requires lim.Valid() && Run(lim, steps).Some?
    ensures Invariant(Run(lim, steps).value) && Run(lim, steps).value.lim == lim
  {
    if steps == [] {
      var s := Init(lim);
      assert forall t :: OrderValidOn(s, t);
    } else {
      RunKeepsInvariant(lim, steps[..|steps| - 1]);
      StepKeeps(Run(lim, steps[..|steps| - 1]).value, steps[|steps| - 1]);
    }
  }
}
