/** Which streams can wait for ever: those whose job left memory, announced its end and
    has nothing more to tell them. */
module JobEventWaiting {
  import opened Collections
  import opened JobEvents
  import opened JobEventTheorems

  /** The stream is in its loop, its job is finished and out of memory, and no terminal
      event is in its buffer. */
  predicate Stranded(s: System, i: nat) {
    && At(s, i, Looping)
    && JobAnnounced(s.jobs, s.streams[i].job) && !s.jobs[s.streams[i].job].inMemory
    && NoneTerminal(BufferOf(s, i))
  }

  lemma TailNotTerminal(buffer: seq<Event>)
    requires buffer != [] && NoneTerminal(buffer)
    ensures NoneTerminal(buffer[1..]) && !IsTerminal(buffer[0].status)
  {
  }

  lemma HeadNotTerminal(buffer: seq<Event>)
    requires buffer != [] && !IsTerminal(buffer[0].status) && NoneTerminal(buffer[1..])
    ensures NoneTerminal(buffer)
  {
    forall k | 0 <= k < |buffer| ensures !IsTerminal(buffer[k].status) {
      if k > 0 {
        assert buffer[k] == buffer[1..][k - 1];
      }
    }
  }

  lemma OutOfMemoryStays(s: System, step: Step, j: JobId)
    requires Enabled(s, step) && JobAnnounced(s.jobs, j) && !s.jobs[j].inMemory
    ensures JobAnnounced(Apply(s, step).jobs, j) && !Apply(s, step).jobs[j].inMemory
  {
  }

  /** A stream stays in its loop unless it writes or its client leaves. */
  lemma LoopingStays(s: System, step: Step, i: nat)
    requires Enabled(s, step) && At(s, i, Looping)
    requires step != TakeEvent(i) && step != KeepAlive(i) && step != ClientLeaves(i)
    ensures At(Apply(s, step), i, Looping)
  {
  }

  lemma StrandedStays(s: System, step: Step, i: nat)
    requires ChannelsValid(s.streams, s.hub) && Stranded(s, i) && Enabled(s, step) && step != ClientLeaves(i)
    ensures Stranded(Apply(s, step), i)
  {
    var j := s.streams[i].job;
    StreamMoves(s, step, i);
    BufferChange(s, step, i);
    OutOfMemoryStays(s, step, j);
    if step == TakeEvent(i) {
      TailNotTerminal(BufferOf(s, i));
    } else if step != KeepAlive(i) {
      LoopingStays(s, step, i);
    }
  }

  /** `steps'` goes on from `steps` while the client of the stream stays. */
  predicate ClientStays(steps: seq<Step>, steps': seq<Step>, i: nat) {
    steps <= steps' && forall k :: |steps| <= k < |steps'| ==> steps'[k] != ClientLeaves(i)
  }

  lemma {:induction false} StrandedForGood(steps: seq<Step>, steps': seq<Step>, s: System, s': System, i: nat)
    requires Run(steps) == Some(s) && Run(steps') == Some(s') && ClientStays(steps, steps', i) && Stranded(s, i)
    ensures Stranded(s', i)
  {
    if |steps'| == |steps| {
      assert steps' == steps;
    } else {
      var before := steps'[..|steps'| - 1];
      var mid := Run(before).value;
      StrandedForGood(steps, before, s, mid, i);
      RunKeepsInvariant(before);
      StrandedStays(mid, steps'[|steps'| - 1], i);
    }
  }

  // ----- Every other stream can end -----

  /** Steps of the job and turns of the stream that may still be needed. */
  function ToGo(s: System, i: nat): nat
    requires At(s, i, Looping) && s.streams[i].job in s.jobs
  {
    |BufferOf(s, i)|
    + match s.jobs[s.streams[i].job].execution
      case FinalSet => 4
      case FinalRead(_) => 2
      case _ => 0
  }

  /** In its loop, for a job whose outcome is set, and not stranded. */
  predicate Hopeful(s: System, i: nat) {
    && At(s, i, Looping) && s.streams[i].job in s.jobs
    && IsFinal(s.jobs[s.streams[i].job].execution) && !Stranded(s, i)
  }

  lemma AnnouncedToEmpty(h: Hub, ev: Event, id: SubId)
    requires ev.job in h.subscribers && id in h.subscribers[ev.job] && h.subscribers[ev.job][id] == []
    ensures BufferIn(Publish(h, ev).subscribers, ev.job, id) == [ev]
  {
  }

  lemma TakingStaysHopeful(s: System, i: nat)
    requires ChannelsValid(s.streams, s.hub) && Hopeful(s, i) && StreamValid(s.streams[i]) && Enabled(s, TakeEvent(i))
    ensures var t := Apply(s, TakeEvent(i));
      if IsTerminal(BufferOf(s, i)[0].status) then Ended(t.streams[i]) && !t.streams[i].cancelled
      else Hopeful(t, i) && ToGo(t, i) < ToGo(s, i)
  {
    var buffer := BufferOf(s, i);
    StreamMoves(s, TakeEvent(i), i);
    BufferChange(s, TakeEvent(i), i);
    if !IsTerminal(buffer[0].status) && NoneTerminal(buffer[1..]) {
      HeadNotTerminal(buffer);
      assert !(JobAnnounced(s.jobs, s.streams[i].job) && !s.jobs[s.streams[i].job].inMemory);
    }
  }

  lemma AnnouncingStaysHopeful(s: System, i: nat)
    requires JobsValid(s.jobs) && ChannelsValid(s.streams, s.hub) && Hopeful(s, i) && BufferOf(s, i) == []
    requires !s.jobs[s.streams[i].job].inMemory
    ensures var j := s.streams[i].job;
      var step := if s.jobs[j].execution.FinalSet? then ReadFinal(j) else AnnounceFinal(j);
      && Enabled(s, step) && Hopeful(Apply(s, step), i) && ToGo(Apply(s, step), i) < ToGo(s, i)
  {
    var j := s.streams[i].job;
    assert JobValid(s.jobs[j]) && ChannelValid(s.streams[i], s.hub);
    if s.jobs[j].execution.FinalRead? {
      var ev := Event(j, StatusKind, s.jobs[j].execution.status);
      AnnouncedToEmpty(s.hub, ev, s.streams[i].sub);
      assert BufferOf(Apply(s, AnnounceFinal(j)), i) == [ev];
      assert IsTerminal([ev][0].status);
    }
  }

  /** The stream ended with its client, or can still end and is closer to it. */
  predicate Closer(s: System, s': System, i: nat)
    requires Hopeful(s, i)
  {
    && i < |s'.streams|
    && if Ended(s'.streams[i]) then !s'.streams[i].cancelled else Hopeful(s', i) && ToGo(s', i) < ToGo(s, i)
  }

  lemma NextTurn(s: System, i: nat) returns (step: Step)
    requires JobsValid(s.jobs) && StreamsValid(s.streams) && ChannelsValid(s.streams, s.hub) && Hopeful(s, i)
    ensures step != ClientLeaves(i) && Enabled(s, step) && Closer(s, Apply(s, step), i)
  {
    var j := s.streams[i].job;
    assert StreamValid(s.streams[i]) && JobValid(s.jobs[j]);
    if s.jobs[j].inMemory {
      step := KeepAlive(i);
    } else if BufferOf(s, i) != [] {
      TakingStaysHopeful(s, i);
      step := TakeEvent(i);
    } else {
      AnnouncingStaysHopeful(s, i);
      step := if s.jobs[j].execution.FinalSet? then ReadFinal(j) else AnnounceFinal(j);
    }
  }

  lemma OneTurn(steps: seq<Step>, s: System, i: nat) returns (steps': seq<Step>, s': System)
    requires Run(steps) == Some(s) && Hopeful(s, i)
    ensures Run(steps') == Some(s') && |steps'| == |steps| + 1 && ClientStays(steps, steps', i) && Closer(s, s', i)
  {
    RunKeepsInvariant(steps);
    var step := NextTurn(s, i);
    steps', s' := More(steps, s, step);
  }

  lemma {:induction false} HopefulCanEnd(steps: seq<Step>, s: System, i: nat, left: nat) returns (steps': seq<Step>)
    requires Run(steps) == Some(s) && Hopeful(s, i) && ToGo(s, i) <= left
    ensures EndsAfter(steps, steps', i)
    decreases left
  {
    var mid;
    steps', mid := OneTurn(steps, s, i);
    if !Ended(mid.streams[i]) {
      var before := steps';
      steps' := HopefulCanEnd(before, mid, i, left - 1);
      assert ClientStays(steps, steps', i) by {
        forall k | |steps| <= k < |steps'| ensures steps'[k] != ClientLeaves(i) {
          if k < |before| {
            assert steps'[k] == before[k];
          }
        }
      }
    }
  }

  /** A continuation in which the client stays and at whose end the stream has ended. */
  ghost predicate EndsAfter(steps: seq<Step>, steps': seq<Step>, i: nat) {
    && ClientStays(steps, steps', i) && Run(steps').Some?
    && i < |Run(steps').value.streams| && Ended(Run(steps').value.streams[i])
  }

  // ----- Theorems -----

  /** A stream in its loop, for a job whose outcome is set, waits for its client to leave,
      whatever else happens, if and only if it is stranded. */
  lemma WaitsForEverExactlyWhen(steps: seq<Step>, i: nat)
    requires Run(steps).Some?
    requires var s := Run(steps).value;
      At(s, i, Looping) && s.streams[i].job in s.jobs && IsFinal(s.jobs[s.streams[i].job].execution)
    ensures Stranded(Run(steps).value, i) <==> !exists steps' :: EndsAfter(steps, steps', i)
  {
    var s := Run(steps).value;
    if Stranded(s, i) {
      forall steps' | EndsAfter(steps, steps', i) ensures false {
        StrandedForGood(steps, steps', s, Run(steps').value, i);
      }
    } else {
      var steps' := HopefulCanEnd(steps, s, i, ToGo(s, i));
    }
  }

  /** A stream that was counted while its job was in memory is never stranded. */
  lemma CountedInMemoryIsNotStranded(steps: seq<Step>, i: nat)
    requires Run(steps).Some? && Following(Run(steps).value, i)
    ensures !Stranded(Run(steps).value, i)
  {
  }

  /** The race that strands a stream: it finds its job, finished and announced, which is
      evicted before the stream is counted among its watchers. */
  lemma RaceStrandsStream(j: JobId, fallback: Status) returns (steps: seq<Step>)
    requires !IsTerminal(fallback)
    ensures Run(steps).Some?
    ensures var s := Run(steps).value; Stranded(s, 0) && s.streams[0].job == j && s.streams[0].counts
  {
    var s;
    steps, s := [], START;
    steps, s := More(steps, s, Submit(j));
    steps, s := More(steps, s, SetFinal(j, Cancelled));
    steps, s := More(steps, s, ReadFinal(j));
    steps, s := More(steps, s, AnnounceFinal(j));
    steps, s := LateStream(steps, s, j, fallback);
  }

  lemma LateStream(steps: seq<Step>, s: System, j: JobId, fallback: Status) returns (steps': seq<Step>, s': System)
    requires Run(steps) == Some(s) && JobAt(s, j, Announced) && s.streams == [] && !IsTerminal(fallback)
    requires s.jobs[j].inMemory && IsTerminal(s.jobs[j].status) && s.jobs[j].watchers == 0
    ensures Run(steps') == Some(s') && Stranded(s', 0) && s'.streams[0].job == j && s'.streams[0].counts
  {
    steps', s' := More(steps, s, Open(j, fallback, true));
    assert BufferOf(s', 0) == [];
    steps', s' := More(steps', s', Evict(j));
    steps', s' := More(steps', s', Count(0));
    steps', s' := More(steps', s', WriteCurrent(0));
    assert BufferOf(s', 0) == [];
  }
}
