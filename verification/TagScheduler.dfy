/** The scheduler goroutine's handlers as they work: in place, on the fields it owns. */
module TagScheduling {
  import opened Collections
  import opened SchedulerBooks

  /** One entry of the weighted draw. */
  datatype Candidate = Candidate(tag: Tag, weight: real)

  function TotalWeight(cands: seq<Candidate>): real {
    if cands == [] then 0.0 else TotalWeight(cands[..|cands| - 1]) + cands[|cands| - 1].weight
  }

  /** The draw `r` falls in the weight interval of candidate k. */
  predicate InInterval(cands: seq<Candidate>, k: nat, r: real) {
    && k < |cands|
    && r <= TotalWeight(cands[..k + 1])
    && (k > 0 ==> TotalWeight(cands[..k]) < r)
  }

  lemma {:induction false} TotalWeightGrows(cands: seq<Candidate>, i: nat, j: nat)
    requires i <= j <= |cands|
    requires forall c :: c in cands ==> c.weight >= 0.0
    ensures TotalWeight(cands[..i]) <= TotalWeight(cands[..j])
  {
    if i < j {
      TotalWeightGrows(cands, i, j - 1);
      assert cands[..j][..j - 1] == cands[..j - 1];
    }
  }

  /** A draw falls in the interval of one candidate only. */
  lemma IntervalsAreDisjoint(cands: seq<Candidate>, i: nat, j: nat, r: real)
    requires forall c :: c in cands ==> c.weight >= 0.0
    requires InInterval(cands, i, r) && InInterval(cands, j, r)
    ensures i == j
  {
    if i < j {
      TotalWeightGrows(cands, i + 1, j);
    } else if j < i {
      TotalWeightGrows(cands, j + 1, i);
    }
  }

  lemma {:induction false} PositiveTotal(cands: seq<Candidate>)
    requires cands != []
    requires forall c :: c in cands ==> c.weight > 0.0
    ensures TotalWeight(cands) > 0.0
  {
    if |cands| > 1 {
      PositiveTotal(cands[..|cands| - 1]);
    }
  }

  /** The scan of the draw: it stops at the candidate whose interval holds `r`, so
      with `r` no more than the total the fallback after the loop is never used. */
  method WeightedDraw(cands: seq<Candidate>, r: real) returns (i: nat, fellBack: bool)
    requires cands != []
    ensures i < |cands|
    ensures r <= TotalWeight(cands) ==> !fellBack
    ensures !fellBack ==> InInterval(cands, i, r)
    ensures fellBack ==> i == |cands| - 1 && TotalWeight(cands) < r
  {
    var rest := r;
    i := 0;
    while i < |cands|
      invariant i <= |cands|
      invariant rest == r - TotalWeight(cands[..i])
      invariant i > 0 ==> rest > 0.0
    {
      assert cands[..i + 1][..i] == cands[..i];
      rest := rest - cands[i].weight;
      if rest <= 0.0 {
        return i, false;
      }
      i := i + 1;
    }
    assert cands[..i] == cands;
    return |cands| - 1, true;
  }

  /** The scaled draw: a uniform u in [0, 1) becomes a point of the total weight. */
  function Scaled(u: real, total: real): real {
    u * total
  }

  class TagScheduler {
    const lim: Limits
    var tags: map<Tag, TagState>
    var pending: int
    var totalAdmits: nat
    var totalRejectsGlobal: nat
    var totalRejectsPerTag: nat

    ghost function Contents(): Books
      reads this
    {
      Books(tags, pending, totalAdmits, totalRejectsGlobal, totalRejectsPerTag)
    }

    constructor (workerCount: int, cfg: Config)
      ensures lim == LimitsOf(workerCount, cfg)
      ensures Contents() == EMPTY
    {
      lim := LimitsOf(workerCount, cfg);
      tags := map[];
      pending, totalAdmits, totalRejectsGlobal, totalRejectsPerTag := 0, 0, 0, 0;
    }

    method TagFor(tag: Tag) returns (st: TagState)
      modifies this`tags
      ensures st == At(old(tags), tag)
      ensures tags == old(tags)[tag := st]
    {
      if tag in tags {
        assert tags == tags[tag := tags[tag]];
        return tags[tag];
      }
      st := FRESH;
      tags := tags[tag := st];
    }

    method HandleAdmit(f: File, now: int) returns (shed: Option<ShedReason>)
      modifies this
      ensures (Contents(), shed) == Admit(lim, old(Contents()), f, now)
    {
      var st := TagFor(f.tag);
      st := st.(lastSeen := now);
      var qLen := |st.fifo|;
      if lim.perTagPendingSize > 0 && qLen >= lim.perTagPendingSize {
        tags := tags[f.tag := st.(rejects := st.rejects + 1)];
        totalRejectsPerTag := totalRejectsPerTag + 1;
        assert tags == old(tags)[f.tag := st.(rejects := st.rejects + 1)];
        return Some(ClassifyShed(lim, tags, f.tag));
      }
      if lim.pendingSize > 0 && pending >= lim.pendingSize && qLen > 0 {
        tags := tags[f.tag := st.(rejects := st.rejects + 1)];
        totalRejectsGlobal := totalRejectsGlobal + 1;
        assert tags == old(tags)[f.tag := st.(rejects := st.rejects + 1)];
        return Some(ClassifyShed(lim, tags, f.tag));
      }
      tags := tags[f.tag := st.(fifo := st.fifo + [f], admits := st.admits + 1)];
      assert tags == old(tags)[f.tag := st.(fifo := st.fifo + [f], admits := st.admits + 1)];
      pending := pending + 1;
      totalAdmits := totalAdmits + 1;
      return None;
    }

    method HandleEvent(ev: Event, now: int)
      modifies this`tags
      ensures Contents() == Handle(old(Contents()), ev, now)
    {
      var st := TagFor(ev.tag);
      st := st.(lastSeen := now);
      match ev.kind {
        case FirstByte =>
          if st.starving > 0 {
            st := st.(starving := st.starving - 1);
          }
        case Done =>
          if st.active > 0 {
            st := st.(active := st.active - 1);
          }
          if ev.stillStarving && st.starving > 0 {
            st := st.(starving := st.starving - 1);
          }
      }
      tags := tags[ev.tag := st];
      assert tags == old(tags)[ev.tag := st];
    }

    /** `cands` lists the dispatchable tags once each, with their weights, in the
        order the map was iterated. */
    ghost predicate ListsEligible(cands: seq<Candidate>)
      reads this
    {
      && (forall i, j :: 0 <= i < j < |cands| ==> cands[i].tag != cands[j].tag)
      && (forall c :: c in cands ==> Eligible(lim, tags, c.tag) && c.weight == tags[c.tag].weight)
      && (forall t :: Eligible(lim, tags, t) ==> Candidate(t, tags[t].weight) in cands)
    }

    method GatherCandidates() returns (cands: seq<Candidate>, total: real)
      ensures ListsEligible(cands) && total == TotalWeight(cands)
    {
      cands, total := [], 0.0;
      var rest := tags.Keys;
      while rest != {}
        invariant rest <= tags.Keys
        invariant total == TotalWeight(cands)
        invariant forall i, j :: 0 <= i < j < |cands| ==> cands[i].tag != cands[j].tag
        invariant forall c :: c in cands ==>
          c.tag !in rest && Eligible(lim, tags, c.tag) && c.weight == tags[c.tag].weight
        invariant forall t :: t !in rest && Eligible(lim, tags, t) ==> Candidate(t, tags[t].weight) in cands
      {
        var t :| t in rest;
        rest := rest - {t};
        var st := tags[t];
        if |st.fifo| == 0 || st.starving >= lim.starvingCap || st.active >= lim.activeCap {
          continue;
        }
        assert (cands + [Candidate(t, st.weight)])[..|cands|] == cands;
        cands := cands + [Candidate(t, st.weight)];
        total := total + st.weight;
      }
    }

    /** A uniform draw `u` picks a dispatchable tag whenever there is one: the one
        whose interval of the total weight holds `u`. */
    method PickForDispatch(u: real) returns (picked: Option<Tag>, ghost cands: seq<Candidate>, ghost k: nat)
      requires 0.0 <= u < 1.0
      requires forall t :: t in tags ==> tags[t].weight > 0.0
      ensures ListsEligible(cands)
      ensures picked.Some? ==> Eligible(lim, tags, picked.value)
      ensures picked.None? <==> forall t :: !Eligible(lim, tags, t)
      ensures picked.Some? ==> InInterval(cands, k, Scaled(u, TotalWeight(cands))) && cands[k].tag == picked.value
    {
      var list, total := GatherCandidates();
      cands, k := list, 0;
      if list == [] {
        return None, cands, k;
      }
      assert list[0] in list;
      DrawWithinTotal(list, u);
      var i, fellBack := WeightedDraw(list, Scaled(u, total));
      return Some(list[i].tag), cands, i;
    }

    method OnDispatched(tag: Tag, now: int)
      requires tag in tags && tags[tag].fifo != []
      modifies this`tags, this`pending
      ensures Contents() == Dispatched(old(Contents()), tag, now)
    {
      var st := tags[tag];
      st := st.(fifo := st.fifo[1..]);
      pending := pending - 1;
      st := st.(active := st.active + 1, starving := st.starving + 1, lastSeen := now);
      tags := tags[tag := st];
    }

    method TickOne(st: TagState, alpha: real) returns (st': TagState)
      requires NextEma(st, alpha) >= 0.0
      ensures st' == TickTag(st, alpha)
    {
      var next := Smoothed(st, alpha);
      if next < EMA_FLOOR && st.active == 0 {
        next := 0.0;
      }
      return st.(ema := next, weight := 1.0 / (1.0 + next));
    }

    /** `alpha` stands for 1 - exp(-elapsed / emaWindow). */
    method TickEMA(alpha: real, elapsed: int)
      requires CanTick(lim, tags, alpha)
      modifies this`tags
      ensures Contents() == if lim.emaWindow <= 0 || elapsed <= 0 then old(Contents())
                            else old(Contents()).(tags := Tick(old(tags), alpha))
    {
      if lim.emaWindow <= 0 || elapsed <= 0 {
        return;
      }
      var rest := tags.Keys;
      while rest != {}
        invariant rest <= tags.Keys == old(tags).Keys
        invariant forall t :: t in tags ==>
          tags[t] == if t in rest then old(tags)[t] else TickTag(old(tags)[t], alpha)
      {
        var t :| t in rest;
        rest := rest - {t};
        var st := TickOne(tags[t], alpha);
        tags := tags[t := st];
      }
      assert tags == Tick(old(tags), alpha);
    }

    method EvictIdleTags(now: int)
      modifies this`tags
      ensures Contents() == old(Contents()).(tags := Evict(lim, old(tags), now))
    {
      var grace := lim.emaWindow;
      if grace < MIN_EVICTION_GRACE {
        grace := MIN_EVICTION_GRACE;
      }
      var rest := tags.Keys;
      while rest != {}
        invariant rest <= tags.Keys <= old(tags).Keys
        invariant forall t :: t in old(tags) ==>
          (t in tags <==> t in rest || !Evictable(lim, old(tags)[t], now))
        invariant forall t :: t in tags ==> tags[t] == old(tags)[t]
      {
        var t :| t in rest;
        rest := rest - {t};
        var st := tags[t];
        if now - st.lastSeen < grace || |st.fifo| > 0 || st.active > 0 || st.starving > 0 || st.ema >= EMA_FLOOR {
          continue;
        }
        tags := tags - {t};
      }
      assert tags == Evict(lim, old(tags), now);
    }

    /** The deferred drain: `dropped` is what was handed to onDrop, in order. */
    method DrainOnExit(hasOnDrop: bool) returns (dropped: seq<File>, ghost order: seq<Tag>)
      modifies this`tags, this`pending
      ensures Enumerates(order, old(tags))
      ensures dropped == if hasOnDrop then DrainOrder(order, old(tags)) else []
      ensures Contents() == old(Contents()).(tags := Emptied(old(tags)), pending := 0)
    {
      dropped, order := [], [];
      var rest := tags.Keys;
      while rest != {}
        invariant rest <= tags.Keys == old(tags).Keys
        invariant forall t :: t in order <==> t in old(tags) && t !in rest
        invariant forall i, j :: 0 <= i < j < |order| ==> order[i] != order[j]
        invariant dropped == if hasOnDrop then DrainOrder(order, old(tags)) else []
        invariant forall t :: t in tags ==>
          tags[t] == if t in rest then old(tags)[t] else old(tags)[t].(fifo := [])
      {
        var t :| t in rest;
        rest := rest - {t};
        if hasOnDrop {
          dropped := dropped + tags[t].fifo;
        }
        assert (order + [t])[..|order|] == order;
        order := order + [t];
        tags := tags[t := tags[t].(fifo := [])];
      }
      assert tags == Emptied(old(tags));
      pending := 0;
    }
  }

  /** In valid books every tag has a positive share of the draw. */
  lemma WeightsArePositive(lim: Limits, b: Books)
    requires BooksValid(lim, b)
    ensures forall t :: t in b.tags ==> b.tags[t].weight > 0.0
  {
    forall t | t in b.tags ensures b.tags[t].weight > 0.0 {
      PositiveProductFactor(b.tags[t].weight, 1.0 + b.tags[t].ema);
    }
  }

  lemma DrawWithinTotal(cands: seq<Candidate>, u: real)
    requires cands != [] && 0.0 <= u < 1.0
    requires forall c :: c in cands ==> c.weight > 0.0
    ensures Scaled(u, TotalWeight(cands)) <= TotalWeight(cands)
  {
    PositiveTotal(cands);
    ProductNotNegative(1.0 - u, TotalWeight(cands));
  }
}
