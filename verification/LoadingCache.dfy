/** LookupOrLoad as it works: in place, on the cache and on the table of loads in
    flight. Every method is one of its atomic sections. */
module LoadingCaches {
  import opened PathNames
  import opened DirRespCaching
  import opened CacheLoads

  class LoadingCache {
    const cache: DirRespCache
    var now: int
    var stores: nat
    var invalidated: bool
    var inflight: map<string, nat>
    var loads: seq<Load>
    var callers: seq<Caller>

    ghost function State(): System
      reads this, cache
    {
      System(cache.ttl, now, cache.entries, stores, invalidated, inflight, loads, callers)
    }

    constructor (ttl: int)
      ensures State() == Start(ttl) && fresh(cache)
    {
      cache := new DirRespCache(ttl);
      now, stores, invalidated, inflight, loads, callers := 0, 0, false, map[], [], [];
    }

    /** The fast path. */
    method LookUpFirst(i: nat)
      requires Enabled(State(), CheckCache(i))
      modifies this`callers
      ensures State() == Apply(old(State()), CheckCache(i))
    {
      var r := callers[i];
      var found := cache.Lookup(r.federation, r.objectPath, now);
      var progress := if found.Some? then Hit(found.value) else Missed(stores, now);
      callers := callers[i := r.(progress := progress)];
    }

    /** Under the table's lock: join the load in flight, or register a new one. */
    method Join(i: nat)
      requires Enabled(State(), JoinOrLead(i))
      modifies this`callers, this`inflight, this`loads
      ensures State() == Apply(old(State()), JoinOrLead(i))
    {
      var r := callers[i];
      var cleaned := Clean(r.objectPath);
      var key := CacheKey(r.federation, cleaned);
      if key in inflight {
        callers := callers[i := r.(progress := Waiting(inflight[key]))];
        return;
      }
      var c := |loads|;
      loads := loads + [Load(r.federation, cleaned, Loading, r.progress.seen, r.progress.lookedAt)];
      inflight := inflight[key := c];
      callers := callers[i := r.(progress := Waiting(c))];
    }

    /** The load's goroutine, once its loader is back: store what may be stored. */
    method StoreLoaded(c: nat)
      requires Enabled(State(), StoreReply(c))
      modifies this`stores, this`loads, cache
      ensures State() == Apply(old(State()), StoreReply(c))
    {
      var l := loads[c];
      var reply := l.phase.reply;
      if reply.Loaded? && reply.prefix != "" {
        cache.Store(l.federation, reply.prefix, l.path, reply.resp, now);
      }
      loads := loads[c := l.(phase := Stored(reply, stores, now))];
      stores := stores + 1;
    }

    method Forget(c: nat)
      requires Enabled(State(), Remove(c))
      modifies this`inflight, this`loads
      ensures State() == Apply(old(State()), Remove(c))
    {
      var l := loads[c];
      inflight := inflight - {CacheKey(l.federation, l.path)};
      loads := loads[c := l.(phase := Removed(l.phase.reply, l.phase.order, l.phase.at))];
    }

    /** A waiter of a settled load: its error, or its stripped response with the
        waiter's own path put back. */
    method TakeOutcome(i: nat)
      requires Enabled(State(), Receive(i))
      modifies this`callers
      ensures State() == Apply(old(State()), Receive(i))
    {
      var r := callers[i];
      var c := r.progress.load;
      var l := loads[c];
      match l.phase.reply
      case Failed(error) =>
        callers := callers[i := r.(progress := Erred(c, error))];
      case Loaded(resp, _) =>
        var stripped := StripFederationPaths(resp, l.path);
        var whole := ReconstitutePaths(stripped, r.objectPath);
        callers := callers[i := r.(progress := Got(c, whole))];
    }
  }
}
