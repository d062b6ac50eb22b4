/** What the averages, the weights and the weighted draw mean: the less a tag used the
    pool of late, the more often it is picked. */
module SchedulerUse {
  import opened Collections
  import opened SchedulerBooks
  import opened SchedulerRuns
  import opened SchedulerSafety
  import opened SchedulerTheorems
  import opened TagScheduling

  // ----- One tick -----

  /** The average moves by the fraction `alpha` of its distance from the use, or without
      use shrinks and is dropped below a millionth; the weight is the reciprocal of one
      plus the average, and nothing else of the tag changes. */
  predicate FollowsUse(st: TagState, st': TagState, use: real, alpha: real) {
    && (use > 0.0 ==> st'.ema - st.ema == alpha * (use - st.ema))
    && (use <= 0.0 ==> st'.ema == if (1.0 - alpha) * st.ema < 0.000001 then 0.0 else (1.0 - alpha) * st.ema)
    && st'.weight * (1.0 + st'.ema) == 1.0 && st'.ema >= 0.0
    && st' == st.(ema := st'.ema, weight := st'.weight)
  }

  /** A tick moves the average of every tag towards the number of its active transfers. */
  lemma TickFollowsUse(st: TagState, alpha: real)
    requires 0.0 < alpha < 1.0 && st.ema >= 0.0 && st.active >= 0
    ensures NextEma(st, alpha) >= 0.0
    ensures FollowsUse(st, TickTag(st, alpha), st.active as real, alpha)
  {
    ProductNotNegative(1.0 - alpha, st.ema);
    ProductNotNegative(alpha, st.active as real);
  }

  lemma TickStep(s: System, alpha: real)
    requires Enabled(s, TickEma(alpha))
    ensures Apply(s, TickEma(alpha)).books.tags == Tick(s.books.tags, alpha)
  {
  }

  lemma TickedFollowsUse(lim: Limits, steps: seq<Step>, t: Tag, alpha: real)
    requires lim.Valid() && Run(lim, steps).Some? && 0.0 < alpha < 1.0 && t in Run(lim, steps).value.books.tags
    requires CanTick(lim, Run(lim, steps).value.books.tags, alpha)
    ensures var s := Run(lim, steps).value; var tags' := Tick(s.books.tags, alpha);
      && tags'.Keys == s.books.tags.Keys
      && FollowsUse(s.books.tags[t], tags'[t], ActiveOwed(s, t) as real, alpha)
  {
    OwedIsActive(lim, steps, t);
    TickFollowsUse(Run(lim, steps).value.books.tags[t], alpha);
  }

  /** The same over the books of every reachable state, with the transfers that still owe
      the tag their done event for its active ones. */
  lemma RunningTickFollowsUse(lim: Limits, steps: seq<Step>, t: Tag, alpha: real)
    requires lim.Valid() && Run(lim, steps).Some? && 0.0 < alpha < 1.0
    requires !Run(lim, steps).value.exited && t in Run(lim, steps).value.books.tags
    ensures var s := Run(lim, steps).value;
      && Enabled(s, TickEma(alpha))
      && var tags' := Apply(s, TickEma(alpha)).books.tags;
         && tags'.Keys == s.books.tags.Keys
         && FollowsUse(s.books.tags[t], tags'[t], ActiveOwed(s, t) as real, alpha)
  {
    TickIsEnabled(lim, steps, alpha);
    TickStep(Run(lim, steps).value, alpha);
    TickedFollowsUse(lim, steps, t, alpha);
  }

  lemma TickIsEnabled(lim: Limits, steps: seq<Step>, alpha: real)
    requires lim.Valid() && Run(lim, steps).Some? && 0.0 < alpha < 1.0 && !Run(lim, steps).value.exited
    ensures Enabled(Run(lim, steps).value, TickEma(alpha))
    ensures CanTick(lim, Run(lim, steps).value.books.tags, alpha)
  {
    WeightsFollowUse(lim, steps, "", alpha);
    RunKeepsBooks(lim, steps);
  }

  lemma OwedIsActive(lim: Limits, steps: seq<Step>, t: Tag)
    requires lim.Valid() && Run(lim, steps).Some? && t in Run(lim, steps).value.books.tags
    ensures var s := Run(lim, steps).value;
      s.books.tags[t].active == ActiveOwed(s, t) >= 0 && s.books.tags[t].ema >= 0.0
  {
    CountersAreOwed(lim, steps, t);
    RunKeepsBooks(lim, steps);
    EmaOf(lim, Run(lim, steps).value.books, t);
    assert CountersValid(lim, Run(lim, steps).value.books.tags[t]);
  }

  /** No weight is greater than one ... */
  lemma WeightsAreAtMostOne(lim: Limits, steps: seq<Step>, t: Tag)
    requires lim.Valid() && Run(lim, steps).Some? && t in Run(lim, steps).value.books.tags
    ensures 0.0 < Run(lim, steps).value.books.tags[t].weight <= 1.0
  {
    RunKeepsBooks(lim, steps);
    EmaOf(lim, Run(lim, steps).value.books, t);
    WeighsAtMostOne(lim, Run(lim, steps).value.books.tags[t]);
  }

  lemma WeighsAtMostOne(lim: Limits, st: TagState)
    requires EmaInRange(lim, st)
    ensures 0.0 < st.weight <= 1.0
  {
    AtMostOne(st.weight, st.ema);
  }

  lemma AtMostOne(weight: real, ema: real)
    requires ema >= 0.0 && weight * (1.0 + ema) == 1.0
    ensures 0.0 < weight <= 1.0
  {
    PositiveProductFactor(weight, 1.0 + ema);
    ProductNotNegative(weight, ema);
  }

  /** ... and a tag that comes onto the books has just that, with nothing averaged. */
  lemma NewTagWeighsMost(s: System, step: Step, t: Tag)
    requires Enabled(s, step) && t !in s.books.tags && t in Apply(s, step).books.tags
    ensures Apply(s, step).books.tags[t].ema == 0.0 && Apply(s, step).books.tags[t].weight == 1.0
  {
  }

  // ----- Many ticks -----

  /** A tag after several ticks with nothing else happening to it. */
  function Ticked(st: TagState, alphas: seq<real>): TagState {
    if alphas == [] then st
    else
      var before := Ticked(st, alphas[..|alphas| - 1]);
      if NextEma(before, alphas[|alphas| - 1]) >= 0.0 then TickTag(before, alphas[|alphas| - 1]) else before
  }

  /** What is left of a distance of which each tick takes its fraction. */
  function Shrunk(distance: real, alphas: seq<real>): real {
    if alphas == [] then distance
    else (1.0 - alphas[|alphas| - 1]) * Shrunk(distance, alphas[..|alphas| - 1])
  }

  predicate AreFractions(alphas: seq<real>) {
    forall i :: 0 <= i < |alphas| ==> 0.0 < alphas[i] < 1.0
  }

  lemma OneTickCloser(st: TagState, alpha: real, distance: real)
    requires 0.0 < alpha < 1.0 && st.active > 0 && st.ema >= 0.0 && st.ema - st.active as real == distance
    ensures NextEma(st, alpha) >= 0.0
    ensures var st' := TickTag(st, alpha);
      st'.active == st.active && st'.ema >= 0.0 && st'.ema - st.active as real == (1.0 - alpha) * distance
  {
    TickFollowsUse(st, alpha);
  }

  /** Under constant use the distance of the average from it is what the ticks leave of
      the first one. */
  lemma {:induction false} AverageApproachesUse(st: TagState, alphas: seq<real>)
    requires st.active > 0 && st.ema >= 0.0 && AreFractions(alphas)
    ensures var after := Ticked(st, alphas);
      && after.active == st.active && after.ema >= 0.0
      && after.ema - st.active as real == Shrunk(st.ema - st.active as real, alphas)
  {
    if alphas != [] {
      var n := |alphas| - 1;
      AverageApproachesUse(st, alphas[..n]);
      OneTickCloser(Ticked(st, alphas[..n]), alphas[n], Shrunk(st.ema - st.active as real, alphas[..n]));
    }
  }

  function Power(x: real, n: nat): real {
    if n == 0 then 1.0 else Power(x, n - 1) * x
  }

  /** With one alpha throughout, its power of the first distance. */
  lemma {:induction false} ShrunkIsPower(distance: real, alphas: seq<real>, alpha: real)
    requires forall i :: 0 <= i < |alphas| ==> alphas[i] == alpha
    ensures Shrunk(distance, alphas) == Power(1.0 - alpha, |alphas|) * distance
  {
    if alphas != [] {
      var n := |alphas| - 1;
      ShrunkIsPower(distance, alphas[..n], alpha);
      Regroup(1.0 - alpha, Power(1.0 - alpha, n), distance);
    }
  }

  lemma Regroup(x: real, y: real, z: real)
    ensures x * (y * z) == (y * x) * z
  {
  }

  /** Of two tags with the same average the one with more active transfers has the smaller
      weight after a tick. */
  lemma MoreUseWeighsLess(st: TagState, other: TagState, alpha: real)
    requires 0.0 < alpha < 1.0 && st.ema == other.ema >= 0.0 && 0 <= other.active < st.active
    ensures NextEma(st, alpha) >= 0.0 && NextEma(other, alpha) >= 0.0
    ensures TickTag(st, alpha).ema > TickTag(other, alpha).ema
    ensures 0.0 < TickTag(st, alpha).weight < TickTag(other, alpha).weight
  {
    TickFollowsUse(st, alpha);
    TickFollowsUse(other, alpha);
    CompareTicked(st, TickTag(st, alpha), other, TickTag(other, alpha), alpha);
  }

  lemma CompareTicked(st: TagState, st': TagState, other: TagState, other': TagState, alpha: real)
    requires 0.0 < alpha < 1.0 && st.ema == other.ema >= 0.0 && 0 <= other.active < st.active
    requires FollowsUse(st, st', st.active as real, alpha) && FollowsUse(other, other', other.active as real, alpha)
    ensures st'.ema > other'.ema && 0.0 < st'.weight < other'.weight
  {
    LargerAverage(st.ema, st.active as real, other.active as real, alpha, st'.ema, other'.ema);
    SmallerReciprocal(st', other');
  }

  lemma LargerAverage(ema: real, more: real, less: real, alpha: real, next: real, other: real)
    requires 0.0 < alpha < 1.0 && ema >= 0.0 && 0.0 <= less < more && next - ema == alpha * (more - ema)
    requires if less > 0.0 then other - ema == alpha * (less - ema) else other <= (1.0 - alpha) * ema || other == 0.0
    ensures next > other
  {
    LargerShare(alpha, more - ema, less - ema);
    ProductNotNegative(1.0 - alpha, ema);
    LargerShare(alpha, more, 0.0);
  }

  lemma LargerShare(alpha: real, x: real, y: real)
    requires alpha > 0.0 && x > y
    ensures alpha * x > alpha * y
  {
    assert alpha * (x - y) > 0.0;
  }

  lemma SmallerReciprocal(st: TagState, other: TagState)
    requires st.weight * (1.0 + st.ema) == 1.0 && other.weight * (1.0 + other.ema) == 1.0
    requires st.ema > other.ema >= 0.0
    ensures 0.0 < st.weight < other.weight
  {
    var v, w, x, y := st.weight, other.weight, 1.0 + st.ema, 1.0 + other.ema;
    PositiveProductFactor(v, x);
    PositiveProductFactor(w, y);
    LargerShare(v, x, y);
    assert v * y < w * y;
    if v >= w {
      ProductNotNegative(v - w, y);
    }
  }

  // ----- The draw -----

  lemma Quotient(x: real, total: real)
    requires total > 0.0
    ensures (x / total) * total == x
  {
  }

  lemma CompareScaled(u: real, v: real, total: real)
    requires total > 0.0
    ensures Scaled(u, total) <= Scaled(v, total) <==> u <= v
    ensures Scaled(u, total) == u * total && Scaled(v, total) == v * total
  {
    if u <= v {
      ProductNotNegative(v - u, total);
    } else {
      LargerShare(total, u, v);
    }
  }

  lemma SharesInOrder(lo: real, hi: real, before: real, upTo: real, total: real)
    requires total > 0.0 && 0.0 <= before < upTo <= total && lo * total == before && hi * total == upTo
    ensures 0.0 <= lo < hi <= 1.0 && (before == 0.0 ==> lo == 0.0) && (upTo == total ==> hi == 1.0)
    ensures (hi - lo) * total == upTo - before
  {
    CompareScaled(0.0, lo, total);
    CompareScaled(lo, 0.0, total);
    CompareScaled(hi, lo, total);
    CompareScaled(hi, 1.0, total);
    CompareScaled(1.0, hi, total);
  }

  /** The weights before a candidate, and with its own. */
  lemma WeightsUpTo(cands: seq<Candidate>, k: nat)
    requires k < |cands| && forall c :: c in cands ==> c.weight > 0.0
    ensures TotalWeight(cands[..k + 1]) == TotalWeight(cands[..k]) + cands[k].weight
    ensures 0.0 <= TotalWeight(cands[..k]) < TotalWeight(cands[..k + 1]) <= TotalWeight(cands)
    ensures k == 0 ==> TotalWeight(cands[..k]) == 0.0
    ensures k == |cands| - 1 ==> TotalWeight(cands[..k + 1]) == TotalWeight(cands)
  {
    assert cands[..k + 1][..k] == cands[..k] && cands[..|cands|] == cands && cands[..0] == [];
    assert cands[k] in cands;
    TotalWeightGrows(cands, 0, k);
    TotalWeightGrows(cands, k + 1, |cands|);
  }

  lemma DrawInShare(cands: seq<Candidate>, k: nat, u: real, lo: real, hi: real, total: real)
    requires k < |cands| && total > 0.0
    requires lo * total == TotalWeight(cands[..k]) && hi * total == TotalWeight(cands[..k + 1])
    ensures InInterval(cands, k, Scaled(u, total)) <==> u <= hi && (k > 0 ==> lo < u)
  {
    CompareScaled(u, hi, total);
    CompareScaled(u, lo, total);
  }

  /** A uniform draw picks each candidate on an interval whose length is its part of the
      sum of the weights. */
  lemma DrawIsProportional(cands: seq<Candidate>, k: nat) returns (lo: real, hi: real)
    requires k < |cands| && forall c :: c in cands ==> c.weight > 0.0
    ensures (hi - lo) * TotalWeight(cands) == cands[k].weight
    ensures 0.0 <= lo < hi <= 1.0 && (k == 0 ==> lo == 0.0) && (k == |cands| - 1 ==> hi == 1.0)
    ensures forall u :: InInterval(cands, k, Scaled(u, TotalWeight(cands))) <==> u <= hi && (k > 0 ==> lo < u)
  {
    var total := TotalWeight(cands);
    WeightsUpTo(cands, k);
    lo, hi := Shares(TotalWeight(cands[..k]), TotalWeight(cands[..k + 1]), total);
    forall u ensures InInterval(cands, k, Scaled(u, total)) <==> u <= hi && (k > 0 ==> lo < u) {
      DrawInShare(cands, k, u, lo, hi, total);
    }
  }

  lemma Shares(before: real, upTo: real, total: real) returns (lo: real, hi: real)
    requires total > 0.0 && 0.0 <= before < upTo <= total
    ensures lo * total == before && hi * total == upTo && (hi - lo) * total == upTo - before
    ensures 0.0 <= lo < hi <= 1.0 && (before == 0.0 ==> lo == 0.0) && (upTo == total ==> hi == 1.0)
  {
    lo, hi := before / total, upTo / total;
    Quotient(before, total);
    Quotient(upTo, total);
    SharesInOrder(lo, hi, before, upTo, total);
  }
}
