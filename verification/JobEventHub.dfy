/** The hub of subscribers as it works: in place, on nested maps of bounded channels. */
module JobEventHubs {
  import opened JobEvents

  class JobEventHub {
    var subscribers: map<JobId, map<SubId, seq<Event>>>
    var nextSubID: SubId
    var closed: set<SubId>
    var panicked: bool

    ghost function State(): Hub
      reads this
    {
      Hub(subscribers, nextSubID, closed, panicked)
    }

    constructor ()
      ensures State() == START.hub
    {
      subscribers, nextSubID, closed, panicked := map[], 0, {}, false;
    }

    /** Registers a fresh channel for the job. */
    method SubscribeJob(j: JobId) returns (id: SubId)
      modifies this
      ensures State() == Subscribe(old(State()), j) && id == old(nextSubID)
    {
      if j !in subscribers {
        subscribers := subscribers[j := map[]];
      }
      id := nextSubID;
      nextSubID := nextSubID + 1;
      var subs: map<SubId, seq<Event>> := subscribers[j];
      subs := subs[id := []];
      subscribers := subscribers[j := subs];
    }

    /** The closure SubscribeJob returns: only its first call does anything. */
    method UnsubscribeOnce(j: JobId, id: SubId, done: bool) returns (done': bool)
      modifies this
      ensures done' && State() == if done then old(State()) else Unsubscribe(old(State()), j, id)
    {
      if done {
        return true;
      }
      done' := true;
      if j in subscribers {
        var subs := subscribers[j];
        if id in subs {
          CloseChannel(id);
          subs := subs - {id};
        }
        assert subs == SubscribersOf(old(subscribers), j) - {id};
        NoneLeft(subs);
        subscribers := if |subs| == 0 then subscribers - {j} else subscribers[j := subs];
      } else {
        assert SubscribersOf(subscribers, j) - {id} == map[];
        assert subscribers - {j} == subscribers;
      }
    }

    method CloseChannel(id: SubId)
      modifies this`closed, this`panicked
      ensures closed == old(closed) + {id} && panicked == (old(panicked) || id in old(closed))
    {
      if id in closed {
        panicked := true;
      }
      closed := closed + {id};
    }

    /** Offers the event to every subscriber of its job, in any order, never waiting. */
    method PublishJobEvent(ev: Event)
      modifies this
      ensures State() == Publish(old(State()), ev)
    {
      if ev.job !in subscribers {
        return;
      }
      var subs := subscribers[ev.job];
      var sent := subs;
      var rest := subs.Keys;
      while rest != {}
        invariant unchanged(`subscribers) && unchanged(`nextSubID) && unchanged(`closed)
        invariant rest <= subs.Keys == sent.Keys
        invariant forall id :: id in subs ==> sent[id] == if id in rest then subs[id] else Offer(subs[id], ev)
        invariant panicked == (old(panicked) || AnyClosed(subs.Keys - rest, closed))
      {
        var id: SubId :| id in rest;
        OneMoreClosed(subs.Keys - rest, id, closed);
        assert subs.Keys - (rest - {id}) == (subs.Keys - rest) + {id};
        rest := rest - {id};
        if id in closed {
          panicked := true;
        }
        if |sent[id]| < CAPACITY {
          sent := sent[id := sent[id] + [ev]];
        }
      }
      assert subs.Keys - {} == subs.Keys;
      assert sent == OfferAll(subs, ev);
      subscribers := subscribers[ev.job := sent];
    }
  }

  lemma OneMoreClosed(ids: set<SubId>, id: SubId, closed: set<SubId>)
    ensures AnyClosed(ids + {id}, closed) <==> AnyClosed(ids, closed) || id in closed
  {
    assert (ids + {id}) * closed == ids * closed + {id} * closed;
    assert id in closed <==> id in {id} * closed;
    if ids * closed != {} {
      var other :| other in ids * closed;
      assert other in (ids + {id}) * closed;
    }
  }

  lemma NoneLeft(subs: map<SubId, seq<Event>>)
    ensures |subs| == 0 <==> subs == map[]
  {
    if |subs| == 0 {
      assert subs.Keys == {};
    }
  }
}
