/** The books of the fair transfer scheduler (client/tag_scheduler.go) as a
    value, and what each handler of its goroutine does to them. */
module SchedulerBooks {
  import opened Collections

  type Tag = string

  /** A submitted transfer. `tag` is the tag its hooks close over. */
  datatype File = File(id: nat, tag: Tag)

  /** The percentages and sizes a scheduler is configured with. */
  datatype Config = Config(perTagStarvingPercent: int, perTagActivePercent: int,
                           pendingBufferSize: int, perTagPendingSize: int, emaWindow: int)

  /** A percentage of the pool as a number of slots, rounded up; out of range it
      is no limit. */
  function Slots(workerCount: int, percent: int): (slots: int)
    ensures 0 < percent < 100 ==> (slots - 1) * 100 < workerCount * percent <= slots * 100
    ensures !(0 < percent < 100) ==> slots == workerCount
  {
    if percent <= 0 || percent >= 100 then workerCount
    else (workerCount * percent + 99) / 100
  }

  /** What a configuration comes to for a pool of a given size. */
  datatype Limits = Limits(workerCount: int, starvingCap: int, activeCap: int,
                           pendingSize: int, perTagPendingSize: int, emaWindow: int)
  {
    predicate Valid() {
      1 <= starvingCap <= workerCount && 1 <= activeCap <= workerCount
    }
  }

  /** The limits of a scheduler built for `workerCount` workers. Both caps leave
      every tag at least one slot and never exceed the pool. */
  function LimitsOf(workerCount: int, cfg: Config): (lim: Limits)
    ensures lim.Valid() && lim.workerCount >= workerCount && (workerCount >= 1 ==> lim.workerCount == workerCount)
    ensures lim.starvingCap == Slots(lim.workerCount, cfg.perTagStarvingPercent)
    ensures lim.activeCap == Slots(lim.workerCount, cfg.perTagActivePercent)
    ensures lim.pendingSize == cfg.pendingBufferSize && lim.perTagPendingSize == cfg.perTagPendingSize
    ensures lim.emaWindow == cfg.emaWindow
  {
    var pool := if workerCount < 1 then 1 else workerCount;
    SlotsWithinPool(pool, cfg.perTagStarvingPercent);
    SlotsWithinPool(pool, cfg.perTagActivePercent);
    Limits(pool, Slots(pool, cfg.perTagStarvingPercent), Slots(pool, cfg.perTagActivePercent),
           cfg.pendingBufferSize, cfg.perTagPendingSize, cfg.emaWindow)
  }

  lemma SlotsWithinPool(workerCount: int, percent: int)
    requires workerCount >= 1
    ensures 1 <= Slots(workerCount, percent) <= workerCount
  {
    if 0 < percent < 100 {
      assert 1 <= workerCount * percent <= workerCount * 99 by {
        assert workerCount * (percent - 1) >= 0;
        assert workerCount * (99 - percent) >= 0;
      }
    }
  }

  datatype TagState = TagState(fifo: seq<File>, active: int, starving: int, ema: real, weight: real,
                               admits: nat, rejects: nat, lastSeen: int)

  const FRESH := TagState([], 0, 0, 0.0, 1.0, 0, 0, 0)

  /** The state `tagFor` answers for a tag: the stored one, or a fresh one. */
  function At(tags: map<Tag, TagState>, tag: Tag): TagState {
    if tag in tags then tags[tag] else FRESH
  }

  datatype Books = Books(tags: map<Tag, TagState>, pending: int, totalAdmits: nat,
                         rejectsGlobal: nat, rejectsPerTag: nat)

  const EMPTY := Books(map[], 0, 0, 0, 0)

  datatype ShedReason = OriginUnresponsive | OriginSlow | CacheOverloaded

  datatype EventKind = FirstByte | Done
  datatype Event = Event(kind: EventKind, tag: Tag, stillStarving: bool)

  function ClassifyShed(lim: Limits, tags: map<Tag, TagState>, tag: Tag): ShedReason {
    if tag !in tags then CacheOverloaded
    else if tags[tag].starving >= lim.starvingCap then OriginUnresponsive
    else if tags[tag].active >= lim.activeCap then OriginSlow
    else CacheOverloaded
  }

  predicate TagQueueFull(lim: Limits, b: Books, tag: Tag) {
    lim.perTagPendingSize > 0 && |At(b.tags, tag).fifo| >= lim.perTagPendingSize
  }

  predicate PoolQueueFull(lim: Limits, b: Books, tag: Tag) {
    lim.pendingSize > 0 && b.pending >= lim.pendingSize && |At(b.tags, tag).fifo| > 0
  }

  /** handleAdmit: `None` is acceptance, `Some` the reason of the shed. */
  function Admit(lim: Limits, b: Books, f: File, now: int): (Books, Option<ShedReason>) {
    var st := At(b.tags, f.tag).(lastSeen := now);
    if TagQueueFull(lim, b, f.tag) then
      var tags := b.tags[f.tag := st.(rejects := st.rejects + 1)];
      (b.(tags := tags, rejectsPerTag := b.rejectsPerTag + 1), Some(ClassifyShed(lim, tags, f.tag)))
    else if PoolQueueFull(lim, b, f.tag) then
      var tags := b.tags[f.tag := st.(rejects := st.rejects + 1)];
      (b.(tags := tags, rejectsGlobal := b.rejectsGlobal + 1), Some(ClassifyShed(lim, tags, f.tag)))
    else
      var tags := b.tags[f.tag := st.(fifo := st.fifo + [f], admits := st.admits + 1)];
      (b.(tags := tags, pending := b.pending + 1, totalAdmits := b.totalAdmits + 1), None)
  }

  function Less1(n: int): int {
    if n > 0 then n - 1 else n
  }

  /** handleEvent, with its guards against going below zero. */
  function Handle(b: Books, ev: Event, now: int): Books {
    var st := At(b.tags, ev.tag).(lastSeen := now);
    var st' := match ev.kind
      case FirstByte => st.(starving := Less1(st.starving))
      case Done => st.(active := Less1(st.active),
                       starving := if ev.stillStarving then Less1(st.starving) else st.starving);
    b.(tags := b.tags[ev.tag := st'])
  }

  /** The live test of pickForDispatch. */
  predicate Eligible(lim: Limits, tags: map<Tag, TagState>, tag: Tag) {
    && tag in tags
    && |tags[tag].fifo| > 0
    && tags[tag].starving < lim.starvingCap
    && tags[tag].active < lim.activeCap
  }

  /** onDispatched, after the head of the tag's FIFO went to a worker. */
  function Dispatched(b: Books, tag: Tag, now: int): Books
    requires tag in b.tags && |b.tags[tag].fifo| > 0
  {
    var st := b.tags[tag];
    b.(tags := b.tags[tag := st.(fifo := st.fifo[1..], active := st.active + 1,
                                 starving := st.starving + 1, lastSeen := now)],
       pending := b.pending - 1)
  }

  const EMA_FLOOR := 0.000001

  function Smoothed(st: TagState, alpha: real): real {
    (1.0 - alpha) * st.ema + alpha * (st.active as real)
  }

  function NextEma(st: TagState, alpha: real): real {
    var next := Smoothed(st, alpha);
    if next < EMA_FLOOR && st.active == 0 then 0.0 else next
  }

  function TickTag(st: TagState, alpha: real): TagState
    requires NextEma(st, alpha) >= 0.0
  {
    st.(ema := NextEma(st, alpha), weight := 1.0 / (1.0 + NextEma(st, alpha)))
  }

  predicate EmaInRange(lim: Limits, st: TagState) {
    && 0.0 <= st.ema <= lim.activeCap as real
    && st.weight * (1.0 + st.ema) == 1.0
  }

  predicate CanTick(lim: Limits, tags: map<Tag, TagState>, alpha: real) {
    && 0.0 < alpha < 1.0
    && forall t :: t in tags ==> NextEma(tags[t], alpha) >= 0.0
  }

  /** tickEMA with a positive elapsed time and an enabled EMA window. */
  function Tick(tags: map<Tag, TagState>, alpha: real): map<Tag, TagState>
    requires forall t :: t in tags ==> NextEma(tags[t], alpha) >= 0.0
  {
    map t | t in tags :: TickTag(tags[t], alpha)
  }

  const MIN_EVICTION_GRACE := 10_000_000_000

  function Grace(lim: Limits): int {
    if lim.emaWindow < MIN_EVICTION_GRACE then MIN_EVICTION_GRACE else lim.emaWindow
  }

  predicate Evictable(lim: Limits, st: TagState, now: int) {
    && now - st.lastSeen >= Grace(lim)
    && |st.fifo| == 0
    && !(st.active > 0 || st.starving > 0)
    && st.ema < EMA_FLOOR
  }

  /** evictIdleTags. */
  function Evict(lim: Limits, tags: map<Tag, TagState>, now: int): map<Tag, TagState> {
    map t | t in tags && !Evictable(lim, tags[t], now) :: tags[t]
  }

  /** The deferred drain: every FIFO is emptied. */
  function Emptied(tags: map<Tag, TagState>): map<Tag, TagState> {
    map t | t in tags :: tags[t].(fifo := [])
  }

  /** The files the drain hands to onDrop when it visits the tags in `order`. */
  function DrainOrder(order: seq<Tag>, tags: map<Tag, TagState>): seq<File> {
    if order == [] then []
    else DrainOrder(order[..|order| - 1], tags) + At(tags, order[|order| - 1]).fifo
  }

  /** `order` visits every tag of the map exactly once. */
  ghost predicate Enumerates<K(!new), V>(order: seq<K>, m: map<K, V>) {
    && (forall k :: k in m <==> k in order)
    && (forall i, j :: 0 <= i < j < |order| ==> order[i] != order[j])
  }

  function FifoLength(): TagState -> nat {
    (st: TagState) => |st.fifo|
  }

  function NonEmpty(tags: map<Tag, TagState>): set<Tag> {
    set t | t in tags && |tags[t].fifo| > 0
  }

  /** The conditions the counters and averages meet in every reachable state. */
  predicate CountersValid(lim: Limits, st: TagState) {
    && 0 <= st.active <= lim.activeCap
    && 0 <= st.starving <= lim.starvingCap
    && EmaInRange(lim, st)
  }

  predicate BooksValid(lim: Limits, b: Books) {
    && lim.Valid()
    && forall t :: t in b.tags ==> CountersValid(lim, b.tags[t])
  }

  lemma ProductNotNegative(x: real, y: real)
    requires x >= 0.0 && y >= 0.0
    ensures x * y >= 0.0
  {
  }

  lemma PositiveProductFactor(x: real, y: real)
    requires x * y > 0.0 && y > 0.0
    ensures x > 0.0
  {
  }

  /** One tick keeps the average between zero and the active cap, and the weight
      the reciprocal of one plus the average. */
  lemma TickKeepsRange(lim: Limits, st: TagState, alpha: real)
    requires lim.Valid() && CountersValid(lim, st) && 0.0 < alpha < 1.0
    ensures NextEma(st, alpha) >= 0.0
    ensures CountersValid(lim, TickTag(st, alpha))
  {
    var cap := lim.activeCap as real;
    var a := st.active as real;
    ProductNotNegative(1.0 - alpha, st.ema);
    ProductNotNegative(1.0 - alpha, cap - st.ema);
    ProductNotNegative(alpha, a);
    ProductNotNegative(alpha, cap - a);
    assert (1.0 - alpha) * cap + alpha * cap == cap;
  }

  /** The average of an idle tag after the given ticks. */
  function Decay(ema: real, alphas: seq<real>): real {
    if alphas == [] then ema
    else NextEma(FRESH.(ema := Decay(ema, alphas[..|alphas| - 1])), alphas[|alphas| - 1])
  }

  /** 1 + n * low. */
  function Factor(n: nat, low: real): (r: real)
    requires low > 0.0
    ensures r >= 1.0
  {
    if n == 0 then 1.0 else Factor(n - 1, low) + low
  }

  lemma {:induction false} FactorIsLinear(n: nat, low: real)
    requires low > 0.0
    ensures Factor(n, low) == 1.0 + n as real * low
  {
    if n > 0 {
      FactorIsLinear(n - 1, low);
      assert n as real * low == (n - 1) as real * low + low;
    }
  }

  /** With every alpha at least `low`, n ticks divide the average of an idle tag
      by at least 1 + n * low. */
  lemma {:induction false} DecayRate(ema: real, alphas: seq<real>, low: real)
    requires ema >= 0.0 && low > 0.0
    requires forall i :: 0 <= i < |alphas| ==> low <= alphas[i] < 1.0
    ensures 0.0 <= Decay(ema, alphas)
    ensures Decay(ema, alphas) * Factor(|alphas|, low) <= ema
  {
    if alphas != [] {
      var n := |alphas| - 1;
      DecayRate(ema, alphas[..n], low);
      DecayStep(Decay(ema, alphas[..n]), alphas[n], low, Factor(n, low), Factor(n + 1, low));
    }
  }

  lemma DecayStep(e: real, alpha: real, low: real, k: real, k': real)
    requires e >= 0.0 && 0.0 < low <= alpha < 1.0 && k >= 1.0 && k' == k + low
    ensures 0.0 <= NextEma(FRESH.(ema := e), alpha)
    ensures NextEma(FRESH.(ema := e), alpha) * k' <= e * k
  {
    var next := NextEma(FRESH.(ema := e), alpha);
    ProductNotNegative(1.0 - alpha, e);
    assert next <= (1.0 - alpha) * e;
    ProductNotNegative((1.0 - alpha) * e - next, k');
    ShrunkProduct(e, alpha, low, k);
  }

  lemma ShrunkProduct(e: real, alpha: real, low: real, k: real)
    requires e >= 0.0 && 0.0 < low <= alpha < 1.0 && k >= 1.0
    ensures ((1.0 - alpha) * e) * (k + low) <= e * k
  {
    var f := (1.0 - alpha) * (k + low);
    ProductNotNegative(alpha - low, k);
    ProductNotNegative(alpha, low);
    assert f == k - (alpha - low) * k - low * (k - 1.0) - alpha * low;
    ProductNotNegative(low, k - 1.0);
    ProductNotNegative(e, k - f);
    assert ((1.0 - alpha) * e) * (k + low) == e * f;
  }

  lemma BelowFloor(d: real, n: real, floor: real, cap: real)
    requires n >= 0.0 && floor > 0.0 && d * (1.0 + n) <= cap && n * floor >= cap
    ensures d < floor
  {
    assert (floor - d) * (1.0 + n) == floor + n * floor - d * (1.0 + n);
    PositiveProductFactor(floor - d, 1.0 + n);
  }

  lemma DecaySnaps(ema: real, alphas: seq<real>)
    requires alphas != [] && Decay(ema, alphas) < EMA_FLOOR
    ensures Decay(ema, alphas) == 0.0
  {
  }

  /** An idle tag's average is exactly zero after finitely many ticks. */
  lemma IdleTagForgets(lim: Limits, ema: real, alphas: seq<real>, low: real)
    requires lim.Valid() && 0.0 <= ema <= lim.activeCap as real && low > 0.0
    requires forall i :: 0 <= i < |alphas| ==> low <= alphas[i] < 1.0
    requires |alphas| as real * low * EMA_FLOOR >= lim.activeCap as real
    ensures Decay(ema, alphas) == 0.0
  {
    var cap, n := lim.activeCap as real, |alphas| as real * low;
    assert cap >= 1.0;
    assert n >= 0.0 by { ProductNotNegative(|alphas| as real, low); }
    assert alphas != [] by {
      PositiveProductFactor(n, EMA_FLOOR);
    }
    BelowFloor(Decay(ema, alphas), n, EMA_FLOOR, cap) by {
      DecayRate(ema, alphas, low);
      FactorIsLinear(|alphas|, low);
    }
    DecaySnaps(ema, alphas);
  }
}
