/** Concurrent lookups that miss (client/dir_resp_cache.go, LookupOrLoad): callers and
    loads interleave one atomic step at a time. */
module CacheLoads {
  import opened Collections
  import opened PathNames
  import opened DirRespCaching

  /** What a loader brings back. */
  datatype Reply = Loaded(resp: Response, prefix: string) | Failed(error: string)

  /** How far the goroutine of one load has come. `order` counts the stores before its
      own, `at` is the time of its own. */
  datatype Phase =
    | Loading
    | Returned(reply: Reply)
    | Stored(reply: Reply, order: nat, at: int)
    | Published(reply: Reply, order: nat, at: int)
    | Removed(reply: Reply, order: nat, at: int)

  /** A load, with the moment its leader looked into the cache: after how many stores,
      and when. */
  datatype Load = Load(federation: string, path: string, phase: Phase, seen: nat, lookedAt: int)

  datatype Progress =
    | Arrived
    | Missed(seen: nat, lookedAt: int)
    | Hit(resp: Response)
    | Waiting(load: nat)
    | Got(load: nat, resp: Response)
    | Erred(load: nat, error: string)
    | Cancelled(load: nat)

  datatype Caller = Caller(federation: string, objectPath: string, progress: Progress)

  datatype System = System(
    ttl: int,
    now: int,
    entries: map<string, Entry>,
    stores: nat,
    invalidated: bool,
    inflight: map<string, nat>,
    loads: seq<Load>,
    callers: seq<Caller>)

  function Start(ttl: int): System {
    System(ttl, 0, map[], 0, false, map[], [], [])
  }

  datatype Step =
    | Arrive(federation: string, objectPath: string)
    | CheckCache(i: nat)
    | JoinOrLead(i: nat)
    | Receive(i: nat)
    | Cancel(i: nat)
    | LoaderReturns(c: nat, reply: Reply)
    | StoreReply(c: nat)
    | Publish(c: nat)
    | Remove(c: nat)
    | TimePasses(delta: nat)
    | CleanUp
    | StoreElsewhere(federation: string, prefix: string, path: string, resp: Response)
    | Invalidate(federation: string, prefix: string)
    | InvalidateAll

  function LoadKey(l: Load): string {
    CacheKey(l.federation, l.path)
  }

  function CallerKey(r: Caller): string {
    CacheKey(r.federation, Clean(r.objectPath))
  }

  predicate Settled(p: Phase) {
    p.Published? || p.Removed?
  }

  predicate Cacheable(reply: Reply) {
    reply.Loaded? && reply.prefix != ""
  }

  /** A newline never occurs in a discovery endpoint; everything else, other stores
      included, may happen at any time. */
  predicate Enabled(s: System, step: Step) {
    match step
    case Arrive(federation, _) => '\n' !in federation
    case CheckCache(i) => i < |s.callers| && s.callers[i].progress.Arrived?
    case JoinOrLead(i) => i < |s.callers| && s.callers[i].progress.Missed?
    case Receive(i) =>
      && i < |s.callers| && s.callers[i].progress.Waiting?
      && s.callers[i].progress.load < |s.loads| && Settled(s.loads[s.callers[i].progress.load].phase)
    case Cancel(i) => i < |s.callers| && s.callers[i].progress.Waiting?
    case LoaderReturns(c, _) => c < |s.loads| && s.loads[c].phase.Loading?
    case StoreReply(c) => c < |s.loads| && s.loads[c].phase.Returned?
    case Publish(c) => c < |s.loads| && s.loads[c].phase.Stored?
    case Remove(c) => c < |s.loads| && s.loads[c].phase.Published?
    case _ => true
  }

  function WithProgress(s: System, i: nat, p: Progress): System
    requires i < |s.callers|
  {
    s.(callers := s.callers[i := s.callers[i].(progress := p)])
  }

  function WithPhase(s: System, c: nat, p: Phase): System
    requires c < |s.loads|
  {
    s.(loads := s.loads[c := s.loads[c].(phase := p)])
  }

  function AfterCheck(s: System, i: nat): System
    requires i < |s.callers|
  {
    match LookupAt(s.entries, s.callers[i].federation, s.callers[i].objectPath, s.now)
    case Some(resp) => WithProgress(s, i, Hit(resp))
    case None => WithProgress(s, i, Missed(s.stores, s.now))
  }

  /** One critical section: join the load in flight for the key, or start one. */
  function AfterJoinOrLead(s: System, i: nat): System
    requires i < |s.callers| && s.callers[i].progress.Missed?
  {
    var r := s.callers[i];
    var key := CallerKey(r);
    if key in s.inflight then WithProgress(s, i, Waiting(s.inflight[key]))
    else
      WithProgress(s, i, Waiting(|s.loads|))
        .(inflight := s.inflight[key := |s.loads|],
          loads := s.loads + [Load(r.federation, Clean(r.objectPath), Loading, r.progress.seen, r.progress.lookedAt)])
  }

  /** What a waiter makes of a settled load. */
  function Outcome(l: Load, c: nat, objectPath: string): Progress
    requires Settled(l.phase)
  {
    match l.phase.reply
    case Loaded(resp, _) => Got(c, Reconstituted(Stripped(resp, l.path), objectPath))
    case Failed(error) => Erred(c, error)
  }

  function AfterStore(s: System, c: nat): System
    requires c < |s.loads| && s.loads[c].phase.Returned?
  {
    var l := s.loads[c];
    var reply := l.phase.reply;
    WithPhase(s, c, Stored(reply, s.stores, s.now))
      .(stores := s.stores + 1,
        entries := if Cacheable(reply)
                   then StoreAt(s.entries, s.ttl, l.federation, reply.prefix, l.path, reply.resp, s.now)
                   else s.entries)
  }

  function Apply(s: System, step: Step): System
    requires Enabled(s, step)
  {
    match step
    case Arrive(federation, objectPath) => s.(callers := s.callers + [Caller(federation, objectPath, Arrived)])
    case CheckCache(i) => AfterCheck(s, i)
    case JoinOrLead(i) => AfterJoinOrLead(s, i)
    case Receive(i) =>
      var c := s.callers[i].progress.load;
      WithProgress(s, i, Outcome(s.loads[c], c, s.callers[i].objectPath))
    case Cancel(i) => WithProgress(s, i, Cancelled(s.callers[i].progress.load))
    case LoaderReturns(c, reply) => WithPhase(s, c, Returned(reply))
    case StoreReply(c) => AfterStore(s, c)
    case Publish(c) =>
      var p := s.loads[c].phase;
      WithPhase(s, c, Published(p.reply, p.order, p.at))
    case Remove(c) =>
      var p := s.loads[c].phase;
      WithPhase(s, c, Removed(p.reply, p.order, p.at)).(inflight := s.inflight - {LoadKey(s.loads[c])})
    case TimePasses(delta) => s.(now := s.now + delta)
    case CleanUp => s.(entries := Unexpired(s.entries, s.now))
    case StoreElsewhere(federation, prefix, path, resp) =>
      s.(entries := StoreAt(s.entries, s.ttl, federation, prefix, path, resp, s.now))
    case Invalidate(federation, prefix) =>
      s.(entries := s.entries - {CacheKey(federation, Clean(prefix))}, invalidated := true)
    case InvalidateAll => s.(entries := map[], invalidated := true)
  }

  /** The state a run leads to, if each of its steps is enabled where it is taken. */
  ghost function Run(ttl: int, steps: seq<Step>): Option<System> {
    if steps == [] then Some(Start(ttl))
    else
      match Run(ttl, steps[..|steps| - 1])
      case None => None
      case Some(s) =>
        if Enabled(s, steps[|steps| - 1]) then Some(Apply(s, steps[|steps| - 1])) else None
  }

  // ----- What every step keeps -----

  /** The table of loads in flight and the loads agree: a key maps to the one load of
      that key that has not been removed. */
  ghost predicate InFlightValid(inflight: map<string, nat>, loads: seq<Load>) {
    && (forall k :: k in inflight ==> inflight[k] < |loads| && LoadKey(loads[inflight[k]]) == k)
    && (forall c :: 0 <= c < |loads| && !loads[c].phase.Removed? ==>
          LoadKey(loads[c]) in inflight && inflight[LoadKey(loads[c])] == c)
    && (forall k :: k in inflight ==> !loads[inflight[k]].phase.Removed?)
  }

  /** A caller that joined a load asks the question the load answers. */
  predicate CallerValid(r: Caller, loads: seq<Load>) {
    && '\n' !in r.federation
    && (r.progress.Waiting? || r.progress.Got? || r.progress.Erred? || r.progress.Cancelled? ==>
          && r.progress.load < |loads|
          && loads[r.progress.load].federation == r.federation
          && loads[r.progress.load].path == Clean(r.objectPath))
    && (r.progress.Got? || r.progress.Erred? ==>
          && Settled(loads[r.progress.load].phase)
          && r.progress == Outcome(loads[r.progress.load], r.progress.load, r.objectPath))
  }

  ghost predicate CallersValid(callers: seq<Caller>, loads: seq<Load>) {
    forall i :: 0 <= i < |callers| ==> CallerValid(callers[i], loads)
  }

  ghost predicate LoadsValid(loads: seq<Load>) {
    forall c :: 0 <= c < |loads| ==> '\n' !in loads[c].federation && Clean(loads[c].path) == loads[c].path
  }

  /** Loads of one key follow one another: a later one starts after the earlier one's
      record is gone. */
  ghost predicate SerialValid(loads: seq<Load>) {
    forall c, d :: 0 <= c < d < |loads| && LoadKey(loads[c]) == LoadKey(loads[d]) ==> loads[c].phase.Removed?
  }

  predicate HasStored(p: Phase) {
    p.Stored? || Settled(p)
  }

  /** The load has stored an entry that answers for the path in the federation. */
  predicate Answers(l: Load, federation: string, path: string) {
    && HasStored(l.phase) && Cacheable(l.phase.reply) && IsRooted(Clean(l.phase.reply.prefix))
    && l.federation == federation && federation != "" && IsRooted(path)
    && MatchesPrefix(path, Clean(l.phase.reply.prefix))
  }

  /** What a load stored is there, or was replaced by something fresher. */
  predicate Fresh(l: Load, entries: map<string, Entry>, ttl: int, now: int) {
    HasStored(l.phase) && Cacheable(l.phase.reply) && IsRooted(Clean(l.phase.reply.prefix)) && l.federation != "" ==>
      var key := CacheKey(l.federation, Clean(l.phase.reply.prefix));
      now < l.phase.at + ttl ==> key in entries && entries[key].expiry >= l.phase.at + ttl
  }

  predicate StoreCounted(p: Phase, stores: nat, now: int) {
    HasStored(p) ==> p.order < stores && p.at <= now
  }

  ghost predicate FreshValid(loads: seq<Load>, entries: map<string, Entry>, stores: nat, invalidated: bool, ttl: int,
                             now: int)
  {
    forall c :: 0 <= c < |loads| ==>
      && StoreCounted(loads[c].phase, stores, now)
      && (invalidated || Fresh(loads[c], entries, ttl, now))
  }

  /** Who looked and missed did so before the load stored its answer, or after the
      answer had expired. */
  predicate LookedInVain(seen: nat, lookedAt: int, l: Load, ttl: int)
    requires HasStored(l.phase)
  {
    seen <= l.phase.order || lookedAt >= l.phase.at + ttl
  }

  ghost predicate LooksValid(federation: string, path: string, seen: nat, lookedAt: int, loads: seq<Load>, stores: nat,
                             invalidated: bool, ttl: int)
  {
    && seen <= stores
    && forall c :: 0 <= c < |loads| && !invalidated && Answers(loads[c], federation, path) ==>
         LookedInVain(seen, lookedAt, loads[c], ttl)
  }

  ghost predicate CallerLooksValid(r: Caller, loads: seq<Load>, stores: nat, invalidated: bool, ttl: int) {
    r.progress.Missed? ==>
      LooksValid(r.federation, Clean(r.objectPath), r.progress.seen, r.progress.lookedAt, loads, stores,
                 invalidated, ttl)
  }

  ghost predicate LeaderLooksValid(d: Load, loads: seq<Load>, stores: nat, invalidated: bool, ttl: int) {
    LooksValid(d.federation, d.path, d.seen, d.lookedAt, loads, stores, invalidated, ttl)
  }

  ghost predicate AllLooksValid(callers: seq<Caller>, loads: seq<Load>, stores: nat, invalidated: bool, ttl: int) {
    && (forall i :: 0 <= i < |callers| ==> CallerLooksValid(callers[i], loads, stores, invalidated, ttl))
    && (forall d :: 0 <= d < |loads| ==> LeaderLooksValid(loads[d], loads, stores, invalidated, ttl))
  }

  ghost predicate Invariant(s: System) {
    && InFlightValid(s.inflight, s.loads)
    && LoadsValid(s.loads)
    && SerialValid(s.loads)
    && CallersValid(s.callers, s.loads)
    && FreshValid(s.loads, s.entries, s.stores, s.invalidated, s.ttl, s.now)
    && AllLooksValid(s.callers, s.loads, s.stores, s.invalidated, s.ttl)
  }

  /** Moving one load on, without storing, changes no answer. */
  lemma PhaseKeepsLooks(s: System, c: nat, p: Phase)
    requires c < |s.loads| && AllLooksValid(s.callers, s.loads, s.stores, s.invalidated, s.ttl)
    requires SameStore(s.loads[c].phase, p)
    ensures AllLooksValid(s.callers, WithPhase(s, c, p).loads, s.stores, s.invalidated, s.ttl)
  {
    var loads := WithPhase(s, c, p).loads;
    forall i | 0 <= i < |s.callers| ensures CallerLooksValid(s.callers[i], loads, s.stores, s.invalidated, s.ttl) {
      assert CallerLooksValid(s.callers[i], s.loads, s.stores, s.invalidated, s.ttl);
    }
    forall d | 0 <= d < |loads| ensures LeaderLooksValid(loads[d], loads, s.stores, s.invalidated, s.ttl) {
      assert LeaderLooksValid(s.loads[d], s.loads, s.stores, s.invalidated, s.ttl);
    }
  }

  lemma CheckKeeps(s: System, i: nat)
    requires Invariant(s) && Enabled(s, CheckCache(i))
    ensures Invariant(AfterCheck(s, i))
  {
    var r := s.callers[i];
    var t := AfterCheck(s, i);
    if t.callers[i].progress.Missed? {
      forall c | 0 <= c < |s.loads| && !s.invalidated && Answers(s.loads[c], r.federation, Clean(r.objectPath))
        ensures LookedInVain(s.stores, s.now, s.loads[c], s.ttl)
      {
        if s.now < s.loads[c].phase.at + s.ttl {
          FreshAnswerHits(s, c, r.objectPath);
        }
      }
      assert CallerLooksValid(t.callers[i], t.loads, t.stores, t.invalidated, t.ttl);
    }
  }

  /** An unexpired stored answer is found by every lookup under its prefix. */
  lemma FreshAnswerHits(s: System, c: nat, objectPath: string)
    requires c < |s.loads| && !s.invalidated && Fresh(s.loads[c], s.entries, s.ttl, s.now)
    requires Answers(s.loads[c], s.loads[c].federation, Clean(objectPath)) && s.now < s.loads[c].phase.at + s.ttl
    ensures LookupAt(s.entries, s.loads[c].federation, objectPath, s.now).Some?
  {
    var prefix := s.loads[c].phase.reply.prefix;
    CleanIsIdempotent(prefix);
    CleanIsIdempotent(objectPath);
    assert Live(s.entries, s.loads[c].federation, Clean(prefix), s.now);
    assert IsCleanAbsolute(Clean(prefix));
    LookupIsLongestPrefix(s.entries, s.loads[c].federation, objectPath, s.now);
  }

  lemma JoiningKeepsCallers(s: System, i: nat)
    requires InFlightValid(s.inflight, s.loads) && LoadsValid(s.loads) && CallersValid(s.callers, s.loads)
    requires Enabled(s, JoinOrLead(i)) && CallerKey(s.callers[i]) in s.inflight
    ensures CallersValid(AfterJoinOrLead(s, i).callers, s.loads)
  {
    var r := s.callers[i];
    var l := s.loads[s.inflight[CallerKey(r)]];
    CleanIsIdempotent(r.objectPath);
    CacheKeyInjective(l.federation, l.path, r.federation, Clean(r.objectPath));
  }

  lemma JoiningKeepsLooks(s: System, i: nat)
    requires AllLooksValid(s.callers, s.loads, s.stores, s.invalidated, s.ttl)
    requires Enabled(s, JoinOrLead(i)) && CallerKey(s.callers[i]) in s.inflight
    ensures AllLooksValid(AfterJoinOrLead(s, i).callers, s.loads, s.stores, s.invalidated, s.ttl)
  {
    var t := AfterJoinOrLead(s, i);
    forall k | 0 <= k < |t.callers| ensures CallerLooksValid(t.callers[k], s.loads, s.stores, s.invalidated, s.ttl) {
      assert CallerLooksValid(s.callers[k], s.loads, s.stores, s.invalidated, s.ttl);
    }
  }

  lemma JoinKeeps(s: System, i: nat)
    requires Invariant(s) && Enabled(s, JoinOrLead(i))
    ensures Invariant(AfterJoinOrLead(s, i))
  {
    if CallerKey(s.callers[i]) in s.inflight {
      JoiningKeepsCallers(s, i);
      JoiningKeepsLooks(s, i);
    } else {
      LeadKeepsTable(s, i);
      LeadKeepsSerial(s, i);
      LeadKeepsCallers(s, i);
      LeadKeepsLooks(s, i);
    }
  }

  ghost predicate AllForgotten(loads: seq<Load>, key: string) {
    forall c :: 0 <= c < |loads| && LoadKey(loads[c]) == key ==> loads[c].phase.Removed?
  }

  /** The table names the loads that are not forgotten. */
  lemma InFlightMeansNotForgotten(inflight: map<string, nat>, loads: seq<Load>, key: string)
    requires InFlightValid(inflight, loads)
    ensures key in inflight <==> !AllForgotten(loads, key)
  {
    if !AllForgotten(loads, key) {
      var c :| 0 <= c < |loads| && LoadKey(loads[c]) == key && !loads[c].phase.Removed?;
    }
  }

  lemma LeadKeepsTable(s: System, i: nat)
    requires InFlightValid(s.inflight, s.loads) && Enabled(s, JoinOrLead(i)) && CallerKey(s.callers[i]) !in s.inflight
    ensures var t := AfterJoinOrLead(s, i); InFlightValid(t.inflight, t.loads)
  {
  }

  lemma LeadKeepsSerial(s: System, i: nat)
    requires InFlightValid(s.inflight, s.loads) && SerialValid(s.loads)
    requires Enabled(s, JoinOrLead(i)) && CallerKey(s.callers[i]) !in s.inflight
    ensures SerialValid(AfterJoinOrLead(s, i).loads)
  {
    InFlightMeansNotForgotten(s.inflight, s.loads, CallerKey(s.callers[i]));
  }

  lemma LeadKeepsCallers(s: System, i: nat)
    requires LoadsValid(s.loads) && CallersValid(s.callers, s.loads)
    requires Enabled(s, JoinOrLead(i)) && CallerKey(s.callers[i]) !in s.inflight
    ensures var t := AfterJoinOrLead(s, i);
      LoadsValid(t.loads) && CallersValid(t.callers, t.loads)
  {
    CleanIsIdempotent(s.callers[i].objectPath);
    var t := AfterJoinOrLead(s, i);
    forall k | 0 <= k < |t.callers| ensures CallerValid(t.callers[k], t.loads) {
      assert CallerValid(s.callers[k], s.loads);
    }
  }

  lemma LeadKeepsLooks(s: System, i: nat)
    requires Enabled(s, JoinOrLead(i)) && CallerKey(s.callers[i]) !in s.inflight
    requires AllLooksValid(s.callers, s.loads, s.stores, s.invalidated, s.ttl)
    ensures var t := AfterJoinOrLead(s, i);
      AllLooksValid(t.callers, t.loads, t.stores, t.invalidated, t.ttl)
  {
    var t := AfterJoinOrLead(s, i);
    assert CallerLooksValid(s.callers[i], s.loads, s.stores, s.invalidated, s.ttl);
    forall k | 0 <= k < |t.callers| ensures CallerLooksValid(t.callers[k], t.loads, t.stores, t.invalidated, t.ttl) {
      assert CallerLooksValid(s.callers[k], s.loads, s.stores, s.invalidated, s.ttl);
    }
    forall d | 0 <= d < |t.loads| ensures LeaderLooksValid(t.loads[d], t.loads, t.stores, t.invalidated, t.ttl) {
      if d < |s.loads| {
        assert LeaderLooksValid(s.loads[d], s.loads, s.stores, s.invalidated, s.ttl);
      }
    }
  }

  predicate SameStore(p: Phase, q: Phase) {
    && HasStored(p) == HasStored(q)
    && (HasStored(p) ==> p.reply == q.reply && p.order == q.order && p.at == q.at)
    && (Settled(p) ==> Settled(q))
  }

  lemma PhaseKeepsCallers(s: System, c: nat, p: Phase)
    requires c < |s.loads| && CallersValid(s.callers, s.loads) && LoadsValid(s.loads)
    requires Settled(s.loads[c].phase) ==> SameStore(s.loads[c].phase, p)
    ensures CallersValid(s.callers, WithPhase(s, c, p).loads) && LoadsValid(WithPhase(s, c, p).loads)
  {
    var loads := WithPhase(s, c, p).loads;
    forall i | 0 <= i < |s.callers| ensures CallerValid(s.callers[i], loads) {
      assert CallerValid(s.callers[i], s.loads);
    }
  }

  lemma PhaseKeepsFresh(s: System, c: nat, p: Phase)
    requires c < |s.loads| && FreshValid(s.loads, s.entries, s.stores, s.invalidated, s.ttl, s.now)
    requires SameStore(s.loads[c].phase, p)
    ensures FreshValid(WithPhase(s, c, p).loads, s.entries, s.stores, s.invalidated, s.ttl, s.now)
  {
    assert StoreCounted(s.loads[c].phase, s.stores, s.now);
    assert s.invalidated || Fresh(s.loads[c], s.entries, s.ttl, s.now);
  }

  /** A load that moves on without being forgotten keeps its place in the table. */
  lemma PhaseKeepsTable(s: System, c: nat, p: Phase)
    requires c < |s.loads| && InFlightValid(s.inflight, s.loads) && SerialValid(s.loads)
    requires !s.loads[c].phase.Removed? && !p.Removed?
    ensures InFlightValid(s.inflight, WithPhase(s, c, p).loads) && SerialValid(WithPhase(s, c, p).loads)
  {
  }

  lemma MoveKeeps(s: System, c: nat, p: Phase)
    requires Invariant(s) && c < |s.loads| && !s.loads[c].phase.Removed? && !p.Removed?
    requires SameStore(s.loads[c].phase, p)
    ensures Invariant(WithPhase(s, c, p))
  {
    PhaseKeepsLooks(s, c, p);
    PhaseKeepsFresh(s, c, p);
    PhaseKeepsCallers(s, c, p);
    PhaseKeepsTable(s, c, p);
  }

  /** The table without a load that is forgotten. */
  lemma RemoveKeepsTable(s: System, c: nat)
    requires InFlightValid(s.inflight, s.loads) && SerialValid(s.loads) && Enabled(s, Remove(c))
    ensures InFlightValid(Apply(s, Remove(c)).inflight, Apply(s, Remove(c)).loads)
    ensures SerialValid(Apply(s, Remove(c)).loads)
  {
    var t := Apply(s, Remove(c));
    forall d | 0 <= d < |t.loads| && !t.loads[d].phase.Removed?
      ensures LoadKey(t.loads[d]) in t.inflight && t.inflight[LoadKey(t.loads[d])] == d
    {
      assert s.inflight[LoadKey(s.loads[d])] == d;
      assert s.inflight[LoadKey(s.loads[c])] == c;
    }
  }

  lemma RemoveKeeps(s: System, c: nat)
    requires Invariant(s) && Enabled(s, Remove(c))
    ensures Invariant(Apply(s, Remove(c)))
  {
    var was := s.loads[c].phase;
    var p := Removed(was.reply, was.order, was.at);
    PhaseKeepsLooks(s, c, p);
    PhaseKeepsFresh(s, c, p);
    PhaseKeepsCallers(s, c, p);
    RemoveKeepsTable(s, c);
  }

  lemma StoreKeepsLooks(s: System, c: nat)
    requires Enabled(s, StoreReply(c)) && AllLooksValid(s.callers, s.loads, s.stores, s.invalidated, s.ttl)
    ensures var t := AfterStore(s, c); AllLooksValid(t.callers, t.loads, t.stores, t.invalidated, t.ttl)
  {
    var t := AfterStore(s, c);
    forall i | 0 <= i < |t.callers| ensures CallerLooksValid(t.callers[i], t.loads, t.stores, t.invalidated, t.ttl) {
      assert CallerLooksValid(s.callers[i], s.loads, s.stores, s.invalidated, s.ttl);
    }
    forall d | 0 <= d < |t.loads| ensures LeaderLooksValid(t.loads[d], t.loads, t.stores, t.invalidated, t.ttl) {
      assert LeaderLooksValid(s.loads[d], s.loads, s.stores, s.invalidated, s.ttl);
    }
  }

  lemma StoreKeepsFresh(s: System, c: nat)
    requires Enabled(s, StoreReply(c)) && FreshValid(s.loads, s.entries, s.stores, s.invalidated, s.ttl, s.now)
    ensures var t := AfterStore(s, c); FreshValid(t.loads, t.entries, t.stores, t.invalidated, t.ttl, t.now)
  {
    var t := AfterStore(s, c);
    forall d | 0 <= d < |t.loads| && !t.invalidated ensures Fresh(t.loads[d], t.entries, t.ttl, t.now) {
      if d != c {
        assert Fresh(s.loads[d], s.entries, s.ttl, s.now) && StoreCounted(s.loads[d].phase, s.stores, s.now);
      }
    }
  }

  lemma StoreKeeps(s: System, c: nat)
    requires Invariant(s) && Enabled(s, StoreReply(c))
    ensures Invariant(AfterStore(s, c))
  {
    StoreKeepsLooks(s, c);
    StoreKeepsFresh(s, c);
    PhaseKeepsCallers(s, c, Stored(s.loads[c].phase.reply, s.stores, s.now));
    PhaseKeepsTable(s, c, Stored(s.loads[c].phase.reply, s.stores, s.now));
  }

  lemma ReceiveKeeps(s: System, i: nat)
    requires Invariant(s) && Enabled(s, Receive(i))
    ensures Invariant(Apply(s, Receive(i)))
  {
    assert CallerValid(s.callers[i], s.loads);
  }

  lemma StepKeepsInvariant(s: System, step: Step)
    requires Invariant(s) && Enabled(s, step)
    ensures Invariant(Apply(s, step))
  {
    match step
    case CheckCache(i) => CheckKeeps(s, i);
    case JoinOrLead(i) => JoinKeeps(s, i);
    case Receive(i) => ReceiveKeeps(s, i);
    case LoaderReturns(c, reply) => MoveKeeps(s, c, Returned(reply));
    case StoreReply(c) => StoreKeeps(s, c);
    case Publish(c) =>
      var p := s.loads[c].phase;
      MoveKeeps(s, c, Published(p.reply, p.order, p.at));
    case Remove(c) => RemoveKeeps(s, c);
    case _ => OtherStepKeeps(s, step);
  }

  predicate IsOtherStep(step: Step) {
    step.Arrive? || step.Cancel? || step.TimePasses? || step.CleanUp? || step.StoreElsewhere?
    || step.Invalidate? || step.InvalidateAll?
  }

  lemma OtherStepKeepsFresh(s: System, step: Step)
    requires FreshValid(s.loads, s.entries, s.stores, s.invalidated, s.ttl, s.now) && Enabled(s, step)
    requires IsOtherStep(step)
    ensures var t := Apply(s, step); FreshValid(t.loads, t.entries, t.stores, t.invalidated, t.ttl, t.now)
  {
    var t := Apply(s, step);
    forall c | 0 <= c < |t.loads|
      ensures StoreCounted(t.loads[c].phase, t.stores, t.now)
      ensures t.invalidated || Fresh(t.loads[c], t.entries, t.ttl, t.now)
    {
      assert StoreCounted(s.loads[c].phase, s.stores, s.now);
      assert s.invalidated || Fresh(s.loads[c], s.entries, s.ttl, s.now);
    }
  }

  lemma OtherStepKeepsLooks(s: System, step: Step)
    requires AllLooksValid(s.callers, s.loads, s.stores, s.invalidated, s.ttl) && Enabled(s, step) && IsOtherStep(step)
    ensures var t := Apply(s, step); AllLooksValid(t.callers, t.loads, t.stores, t.invalidated, t.ttl)
  {
    var t := Apply(s, step);
    forall i | 0 <= i < |t.callers| ensures CallerLooksValid(t.callers[i], t.loads, t.stores, t.invalidated, t.ttl) {
      if i < |s.callers| {
        assert CallerLooksValid(s.callers[i], s.loads, s.stores, s.invalidated, s.ttl);
      }
    }
    forall d | 0 <= d < |t.loads| ensures LeaderLooksValid(t.loads[d], t.loads, t.stores, t.invalidated, t.ttl) {
      assert LeaderLooksValid(s.loads[d], s.loads, s.stores, s.invalidated, s.ttl);
    }
  }

  lemma OtherStepKeepsCallers(s: System, step: Step)
    requires CallersValid(s.callers, s.loads) && Enabled(s, step) && IsOtherStep(step)
    ensures CallersValid(Apply(s, step).callers, Apply(s, step).loads)
  {
  }

  lemma OtherStepKeeps(s: System, step: Step)
    requires Invariant(s) && Enabled(s, step) && IsOtherStep(step)
    ensures Invariant(Apply(s, step))
  {
    OtherStepKeepsFresh(s, step);
    OtherStepKeepsLooks(s, step);
    OtherStepKeepsCallers(s, step);
  }

  lemma {:induction false} RunKeepsInvariant(ttl: int, steps: seq<Step>)
    requires Run(ttl, steps).Some?
    ensures Invariant(Run(ttl, steps).value)
    ensures Run(ttl, steps).value.ttl == ttl
  {
    if steps != [] {
      var before := steps[..|steps| - 1];
      RunKeepsInvariant(ttl, before);
      StepKeepsInvariant(Run(ttl, before).value, steps[|steps| - 1]);
    }
  }

  // ----- Theorems -----

  /** At most one loader runs per federation and cleaned path: a load starts only when
      the earlier load of its key has stored its reply, answered and been forgotten. */
  lemma OneLoaderAtATime(ttl: int, steps: seq<Step>, c: nat, d: nat)
    requires Run(ttl, steps).Some?
    ensures var loads := Run(ttl, steps).value.loads;
      c < |loads| && d < |loads| && LoadKey(loads[c]) == LoadKey(loads[d])
      && !loads[c].phase.Removed? && !loads[d].phase.Removed?
      ==> c == d
    ensures var loads := Run(ttl, steps).value.loads;
      c < d < |loads| && loads[c].federation == loads[d].federation && loads[c].path == loads[d].path ==>
        loads[c].phase.Removed?
  {
    RunKeepsInvariant(ttl, steps);
  }

  /** Every caller that misses and is not cancelled ends with the reply of one load of
      its own federation and path, and with exactly what the loader brought when the
      loader's servers end in that path. */
  lemma WaitersGetTheirOwnReply(ttl: int, steps: seq<Step>, i: nat)
    requires Run(ttl, steps).Some? && i < |Run(ttl, steps).value.callers|
    ensures var s := Run(ttl, steps).value;
      var r := s.callers[i];
      && (r.progress.Got? ==>
            && r.progress.load < |s.loads| && Settled(s.loads[r.progress.load].phase)
            && var l := s.loads[r.progress.load];
               && l.federation == r.federation && l.path == Clean(r.objectPath)
               && l.phase.reply.Loaded?
               && r.progress.resp == Reconstituted(Stripped(l.phase.reply.resp, r.objectPath), r.objectPath)
               && (ServersEndIn(l.phase.reply.resp, r.objectPath) ==> r.progress.resp == l.phase.reply.resp))
      && (r.progress.Erred? ==>
            && r.progress.load < |s.loads| && Settled(s.loads[r.progress.load].phase)
            && var l := s.loads[r.progress.load];
               && l.federation == r.federation && l.path == Clean(r.objectPath)
               && l.phase.reply == Failed(r.progress.error))
  {
    RunKeepsInvariant(ttl, steps);
    var s := Run(ttl, steps).value;
    var r := s.callers[i];
    assert CallerValid(r, s.loads);
    CleanIsIdempotent(r.objectPath);
    if r.progress.Got? {
      ReconstituteUndoesStrip(s.loads[r.progress.load].phase.reply.resp, r.objectPath);
    }
  }

  predicate ServersEndIn(resp: Response, objectPath: string) {
    forall i :: 0 <= i < |resp.servers| && resp.servers[i].Some? ==>
      HasSuffix(resp.servers[i].value.path, Clean(objectPath))
  }

  /** What a loader brought under an absolute prefix is stored before its load is
      forgotten: until it expires, and unless entries are invalidated, every lookup under
      the prefix hits. */
  lemma StoredBeforeForgotten(ttl: int, steps: seq<Step>, c: nat, objectPath: string)
    requires Run(ttl, steps).Some? && c < |Run(ttl, steps).value.loads|
    requires var s := Run(ttl, steps).value; var l := s.loads[c];
      && !s.invalidated && l.phase.Removed? && s.now < l.phase.at + ttl
      && l.phase.reply.Loaded? && IsRooted(l.phase.reply.prefix) && l.federation != ""
      && IsRooted(objectPath) && MatchesPrefix(Clean(objectPath), Clean(l.phase.reply.prefix))
    ensures var s := Run(ttl, steps).value;
      LookupAt(s.entries, s.loads[c].federation, objectPath, s.now).Some?
  {
    RunKeepsInvariant(ttl, steps);
    CleanIsIdempotent(objectPath);
    CleanIsIdempotent(Run(ttl, steps).value.loads[c].phase.reply.prefix);
    FreshAnswerHits(Run(ttl, steps).value, c, objectPath);
  }

  /** A load stores what it brought, without its own path, for the time to live; an error,
      or a reply without an absolute prefix, is not stored. */
  lemma OnlyAnswersAreStored(s: System, c: nat)
    requires Enabled(s, StoreReply(c))
    ensures var l := s.loads[c]; var entries := Apply(s, StoreReply(c)).entries;
      if l.phase.reply.Loaded? && IsRooted(l.phase.reply.prefix) && l.federation != "" then
        var key := CacheKey(l.federation, Clean(l.phase.reply.prefix));
        && entries.Keys == s.entries.Keys + {key}
        && entries[key] == Entry(Stripped(l.phase.reply.resp, l.path), s.now + s.ttl)
        && forall k :: k in s.entries && k != key ==> entries[k] == s.entries[k]
      else entries == s.entries
  {
    if s.loads[c].phase.reply.Loaded? {
      CleanIsIdempotent(s.loads[c].phase.reply.prefix);
    }
  }

  /** What an invalidation takes away: one prefix of one federation, or everything; the
      other answers stay as they are. */
  lemma InvalidationForgets(s: System, federation: string, prefix: string, other: string, q: string)
    requires '\n' !in federation && '\n' !in other && IsRooted(q)
    ensures var s' := Apply(s, Invalidate(federation, prefix));
      && s'.now == s.now && !Live(s'.entries, federation, Clean(prefix), s.now)
      && (other != federation || !MatchesPrefix(Clean(q), Clean(prefix)) ==>
            LookupAt(s'.entries, other, q, s.now) == LookupAt(s.entries, other, q, s.now))
    ensures LookupAt(Apply(s, InvalidateAll).entries, other, q, s.now) == None
    ensures Apply(s, Invalidate(federation, prefix)).invalidated && Apply(s, InvalidateAll).invalidated
  {
    InvalidationIsLocal(s.entries, federation, prefix, other, q, s.now);
    var none: map<string, Entry> := Apply(s, InvalidateAll).entries;
    NamesAreShaped(q);
    WalkFindsLongest(none, other, true, Names(q), s.now);
  }

  lemma StoringElsewhere(s: System, federation: string, prefix: string, p: string, resp: Response)
    ensures Apply(s, StoreElsewhere(federation, prefix, p, resp)).entries
         == StoreAt(s.entries, s.ttl, federation, prefix, p, resp, s.now)
  {
  }

  /** What is stored from elsewhere answers like a load of its own, as long as it lives. */
  lemma StoredElsewhereServes(s: System, federation: string, prefix: string, p: string, q: string,
                              bases: seq<Option<Url>>, headers: string, later: int)
    requires federation != "" && IsRooted(prefix) && IsRooted(q) && Names(p) != [] && Names(q) != []
    requires later < s.now + s.ttl && MatchesPrefix(Clean(q), Clean(prefix))
    requires forall r :: IsCleanAbsolute(r) && Live(s.entries, federation, r, later) && MatchesPrefix(Clean(q), r) ==>
      |r| <= |Clean(prefix)|
    ensures var learned := Response(Extended(bases, Clean(p)), headers);
      LookupAt(Apply(s, StoreElsewhere(federation, prefix, p, learned)).entries, federation, q, later)
      == Some(Response(Extended(bases, Clean(q)), headers))
  {
    StoringElsewhere(s, federation, prefix, p, Response(Extended(bases, Clean(p)), headers));
    LearnedEntryServes(s.entries, s.ttl, federation, prefix, p, q, bases, headers, s.now, later);
  }

  /** The clean-up changes no answer, and time passes without it. */
  lemma CleaningUpIsUnseen(s: System, federation: string, q: string, delta: nat)
    ensures var s' := Apply(Apply(s, TimePasses(delta)), CleanUp);
      && s'.now == s.now + delta
      && LookupAt(s'.entries, federation, q, s'.now) == LookupAt(s.entries, federation, q, s'.now)
      && forall k :: k in s'.entries ==> s'.entries[k].expiry >= s'.now
  {
    CleaningChangesNoAnswer(s.entries, s.now + delta, federation, q, s.now + delta);
  }

  /** The look-up of a caller: a hit is the cache's answer, a miss is one. */
  lemma CheckingAsksTheCache(s: System, i: nat)
    requires Enabled(s, CheckCache(i))
    ensures var r := Apply(s, CheckCache(i)).callers[i].progress;
      && (r.Hit? <==> LookupAt(s.entries, s.callers[i].federation, s.callers[i].objectPath, s.now).Some?)
      && (r.Hit? ==> Some(r.resp) == LookupAt(s.entries, s.callers[i].federation, s.callers[i].objectPath, s.now))
      && (!r.Hit? ==> r == Missed(s.stores, s.now))
  {
  }

  /** A path is loaded a second time only by a leader that looked into the cache before
      the first load's store, or after what it stored had expired. */
  lemma SecondLoaderLookedInVain(ttl: int, steps: seq<Step>, c: nat, d: nat)
    requires Run(ttl, steps).Some? && !Run(ttl, steps).value.invalidated
    requires var loads := Run(ttl, steps).value.loads;
      c < d < |loads| && Answers(loads[c], loads[d].federation, loads[d].path)
    ensures var loads := Run(ttl, steps).value.loads;
      loads[d].seen <= loads[c].phase.order || loads[d].lookedAt >= loads[c].phase.at + ttl
  {
    RunKeepsInvariant(ttl, steps);
    var s := Run(ttl, steps).value;
    assert LeaderLooksValid(s.loads[d], s.loads, s.stores, s.invalidated, s.ttl);
  }

  /** When a load starts: a caller that missed leads a new load of its key exactly when
      no load of that key is in flight, that is when every earlier one was forgotten;
      otherwise it waits for the one that is. */
  lemma LoadsAgainExactlyWhen(ttl: int, steps: seq<Step>, i: nat)
    requires Run(ttl, steps).Some? && Enabled(Run(ttl, steps).value, JoinOrLead(i))
    ensures var s := Run(ttl, steps).value; var s' := Apply(s, JoinOrLead(i)); var key := CallerKey(s.callers[i]);
      && (|s'.loads| == |s.loads| + 1 <==> AllForgotten(s.loads, key))
      && (key !in s.inflight <==> AllForgotten(s.loads, key))
      && (AllForgotten(s.loads, key) ==>
            && s'.loads[..|s.loads|] == s.loads && LoadKey(s'.loads[|s.loads|]) == key
            && s'.loads[|s.loads|].phase.Loading?
            && s'.callers[i].progress == Waiting(|s.loads|))
      && (!AllForgotten(s.loads, key) ==>
            && s'.loads == s.loads && s'.callers[i].progress.Waiting? && s'.callers[i].progress.load < |s.loads|
            && LoadKey(s.loads[s'.callers[i].progress.load]) == key)
  {
    RunKeepsInvariant(ttl, steps);
    var s := Run(ttl, steps).value;
    InFlightMeansNotForgotten(s.inflight, s.loads, CallerKey(s.callers[i]));
  }

  /** A caller can only have missed a path that a load has answered by looking before
      that load's store, or after the answer expired; and every such caller that comes
      to the table when all loads of its key are forgotten does load again. */
  lemma MissedCallerLoadsAgain(ttl: int, steps: seq<Step>, i: nat, c: nat)
    requires Run(ttl, steps).Some? && Enabled(Run(ttl, steps).value, JoinOrLead(i))
    requires var s := Run(ttl, steps).value;
      && c < |s.loads| && LoadKey(s.loads[c]) == CallerKey(s.callers[i])
      && AllForgotten(s.loads, CallerKey(s.callers[i]))
    ensures var s := Run(ttl, steps).value; var s' := Apply(s, JoinOrLead(i)); var p := s.callers[i].progress;
      && |s'.loads| == |s.loads| + 1 && LoadKey(s'.loads[|s.loads|]) == LoadKey(s.loads[c])
      && (!s.invalidated && Answers(s.loads[c], s.callers[i].federation, Clean(s.callers[i].objectPath)) ==>
            p.seen <= s.loads[c].phase.order || p.lookedAt >= s.loads[c].phase.at + ttl)
  {
    RunKeepsInvariant(ttl, steps);
    LoadsAgainExactlyWhen(ttl, steps, i);
    var s := Run(ttl, steps).value;
    assert CallerLooksValid(s.callers[i], s.loads, s.stores, s.invalidated, s.ttl);
  }

  lemma Extend(ttl: int, steps: seq<Step>, s: System, step: Step)
    requires Run(ttl, steps) == Some(s) && Enabled(s, step)
    ensures Run(ttl, steps + [step]) == Some(Apply(s, step))
  {
    assert (steps + [step])[..|steps|] == steps;
  }

  /** Two callers of one path that both looked into the empty cache. */
  lemma BothMiss(ttl: int, federation: string, path: string) returns (steps: seq<Step>, s: System)
    requires federation != "" && '\n' !in federation
    ensures Run(ttl, steps) == Some(s)
    ensures var caller := Caller(federation, path, Missed(0, 0));
      s == Start(ttl).(callers := [caller, caller])
  {
    steps, s := [], Start(ttl);
    EmptyMisses(federation, path);
    steps, s := More(ttl, steps, s, Arrive(federation, path));
    steps, s := More(ttl, steps, s, Arrive(federation, path));
    steps, s := More(ttl, steps, s, CheckCache(0));
    steps, s := More(ttl, steps, s, CheckCache(1));
  }

  lemma More(ttl: int, steps: seq<Step>, s: System, step: Step) returns (steps': seq<Step>, s': System)
    requires Run(ttl, steps) == Some(s) && Enabled(s, step)
    ensures s' == Apply(s, step) && Run(ttl, steps') == Some(s')
  {
    Extend(ttl, steps, s, step);
    steps', s' := steps + [step], Apply(s, step);
  }

  /** It does happen, with nothing invalidated and no time passing: a caller that
      missed before the store and came to the table after the removal loads the path
      again. */
  lemma PathMayBeLoadedTwice(ttl: int, federation: string, path: string, resp: Response) returns (steps: seq<Step>)
    requires ttl > 0 && federation != "" && '\n' !in federation && IsRooted(path)
    ensures Run(ttl, steps).Some?
    ensures var s := Run(ttl, steps).value;
      && |s.loads| == 2 && LoadKey(s.loads[0]) == LoadKey(s.loads[1])
      && s.loads[0].phase.Removed? && Answers(s.loads[0], federation, Clean(path))
      && s.loads[1].phase.Loading? && !s.invalidated && s.now == 0
  {
    var s;
    steps, s := BothMiss(ttl, federation, path);
    CleanIsIdempotent(path);
    steps, s := More(ttl, steps, s, JoinOrLead(0));
    steps, s := More(ttl, steps, s, LoaderReturns(0, Loaded(resp, path)));
    steps, s := More(ttl, steps, s, StoreReply(0));
    steps, s := More(ttl, steps, s, Publish(0));
    steps, s := More(ttl, steps, s, Remove(0));
    steps, s := More(ttl, steps, s, JoinOrLead(1));
  }

  lemma EmptyMisses(federation: string, path: string)
    ensures LookupAt(map[], federation, path, 0).None?
  {
    if federation != "" {
      EmptyWalk(federation, IsRooted(path), Names(path));
    }
  }

  lemma {:induction false} EmptyWalk(federation: string, rooted: bool, names: seq<string>)
    ensures Walk(map[], federation, rooted, names, 0).None?
  {
    if names != [] {
      EmptyWalk(federation, rooted, names[..|names| - 1]);
    }
  }

  // ----- Cancelling -----

  /** The caller a step is about, if it is about one. */
  function CallerOf(step: Step): Option<nat> {
    match step
    case CheckCache(i) => Some(i)
    case JoinOrLead(i) => Some(i)
    case Receive(i) => Some(i)
    case Cancel(i) => Some(i)
    case _ => None
  }

  /** Cancelling one waiter changes nothing for anyone else: it commutes with every
      step that is not that waiter's own. */
  lemma CancellingCommutes(s: System, i: nat, step: Step)
    requires Enabled(s, Cancel(i)) && CallerOf(step) != Some(i)
    ensures Enabled(Apply(s, Cancel(i)), step) <==> Enabled(s, step)
    ensures Enabled(s, step) ==>
      && Enabled(Apply(s, step), Cancel(i))
      && Apply(Apply(s, Cancel(i)), step) == Apply(Apply(s, step), Cancel(i))
  {
    var t := Apply(s, Cancel(i));
    if Enabled(s, step) {
      var u := Apply(s, step);
      assert Apply(t, step).callers == Apply(u, Cancel(i)).callers;
    }
  }

  /** The cancelled waiter itself is done: it takes no step any more. */
  lemma CancelledIsDone(s: System, i: nat, step: Step)
    requires Enabled(s, Cancel(i))
    ensures var t := Apply(s, Cancel(i));
      && t.callers[i] == s.callers[i].(progress := Cancelled(s.callers[i].progress.load))
      && (CallerOf(step) == Some(i) ==> !Enabled(t, step))
      && t.loads == s.loads && t.inflight == s.inflight && t.entries == s.entries
  {
  }

  /** Nobody waits for ever: once its loader has returned, a waiter is answered by three
      steps of the load's own goroutine, whatever the other callers do or do not do. */
  lemma WaiterIsAnswered(ttl: int, steps: seq<Step>, i: nat) returns (more: seq<Step>)
    requires Run(ttl, steps).Some? && i < |Run(ttl, steps).value.callers|
    requires var s := Run(ttl, steps).value;
      && s.callers[i].progress.Waiting?
      && s.callers[i].progress.load < |s.loads| && !s.loads[s.callers[i].progress.load].phase.Loading?
    ensures |more| <= 3 && Run(ttl, steps + more).Some?
    ensures var c := Run(ttl, steps).value.callers[i].progress.load;
      forall step :: step in more ==> step in {StoreReply(c), Publish(c), Receive(i)}
    ensures var t := Run(ttl, steps + more).value;
      i < |t.callers| && (t.callers[i].progress.Got? || t.callers[i].progress.Erred?)
  {
    var s := Run(ttl, steps).value;
    var c := s.callers[i].progress.load;
    more := [];
    assert steps + [] == steps;
    if s.loads[c].phase.Returned? {
      more, s := Advance(ttl, steps, more, s, StoreReply(c));
    }
    if s.loads[c].phase.Stored? {
      more, s := Advance(ttl, steps, more, s, Publish(c));
    }
    more, s := Advance(ttl, steps, more, s, Receive(i));
  }

  lemma Advance(ttl: int, steps: seq<Step>, more: seq<Step>, s: System, step: Step)
    returns (more': seq<Step>, s': System)
    requires Run(ttl, steps + more) == Some(s) && Enabled(s, step)
    ensures more' == more + [step] && s' == Apply(s, step) && Run(ttl, steps + more') == Some(s')
  {
    Extend(ttl, steps + more, s, step);
    more', s' := more + [step], Apply(s, step);
    assert steps + more' == (steps + more) + [step];
  }
}
