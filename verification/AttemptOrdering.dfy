/** The order in which a download tries its endpoints (client/handle_http.go,
    compareAttempts and sortAttempts). */
module AttemptOrdering {
  import opened Collections
  import opened ServerChoice

  /** How a probe ended: alive with a size and an age (-1 when unknown), cut off by the
      probe's own cancellation or deadline, or failed. */
  datatype Outcome = Alive(size: int, age: int) | CutOff | Refused(throttled: bool)

  /** A probe may say whether the path is a collection even when it fails. */
  datatype Reply = Reply(outcome: Outcome, answered: bool, isCollection: bool)

  datatype CollectionAnswer = CollectionAnswer(answered: bool, isCollection: bool, throttled: bool)

  /** An attempt with its score: 1 responded, 0 unknown, -1 failed. */
  datatype Ranked = Ranked(good: int, attempt: Attempt)

  predicate Scored(s: seq<Ranked>) {
    forall r :: r in s ==> -1 <= r.good <= 1
  }

  /** compareAttempts. */
  function CompareAttempts(left: Ranked, right: Ranked): int {
    if left.attempt.preferred != right.attempt.preferred then (if left.attempt.preferred then -1 else 1)
    else if left.good > right.good then -1
    else if left.good < right.good then 1
    else 0
  }

  // ----- Sorting -----

  /** Six tiers: preferred before the director's, and in each the live before the
      unknown before the failed. */
  function Tier(r: Ranked): int {
    (if r.attempt.preferred then 1 else 4) - r.good
  }

  function InTier(t: int): Ranked -> bool {
    (r: Ranked) => Tier(r) == t
  }

  function TierOf(s: seq<Ranked>, t: int): seq<Ranked> {
    Select(s, InTier(t))
  }

  /** The tiers from `lo` up to `hi`, one after another, each in its original order. */
  function Tiers(s: seq<Ranked>, lo: int, hi: int): seq<Ranked>
    decreases hi - lo, s
  {
    if lo >= hi then [] else Tiers(s, lo, hi - 1) + TierOf(s, hi - 1)
  }

  /** What sorting attempts must come to. */
  function Tiered(s: seq<Ranked>): seq<Ranked> {
    Tiers(s, 0, 6)
  }

  lemma CompareIsTierOrder(left: Ranked, right: Ranked)
    requires -1 <= left.good <= 1 && -1 <= right.good <= 1
    ensures CompareAttempts(left, right) < 0 <==> Tier(left) < Tier(right)
    ensures CompareAttempts(left, right) == 0 <==> Tier(left) == Tier(right)
  {
  }

  lemma {:induction false} TierOfHas(s: seq<Ranked>, t: int)
    ensures forall r :: r in TierOf(s, t) ==> r in s && Tier(r) == t
  {
    if s != [] {
      TierOfHas(s[..|s| - 1], t);
    }
  }

  /** Where a stable insertion puts `x`: behind everything not after it. */
  function Place(s: seq<Ranked>, x: Ranked): seq<Ranked> {
    if s == [] || Tier(s[|s| - 1]) <= Tier(x) then s + [x]
    else Place(s[..|s| - 1], x) + [s[|s| - 1]]
  }

  lemma {:induction false} PlaceSplits(a: seq<Ranked>, b: seq<Ranked>, x: Ranked)
    requires forall r :: r in a ==> Tier(r) <= Tier(x)
    requires forall r :: r in b ==> Tier(r) > Tier(x)
    ensures Place(a + b, x) == a + [x] + b
  {
    if b == [] {
      assert a + b == a;
    } else {
      var n := |b| - 1;
      assert (a + b)[..|a + b| - 1] == a + b[..n];
      PlaceSplits(a, b[..n], x);
      assert b == b[..n] + [b[n]];
    }
  }

  lemma {:induction false} TiersHave(s: seq<Ranked>, lo: int, hi: int)
    ensures forall r :: r in Tiers(s, lo, hi) ==> r in s && lo <= Tier(r) < hi
    decreases hi - lo
  {
    if lo < hi {
      TiersHave(s, lo, hi - 1);
      TierOfHas(s, hi - 1);
    }
  }

  lemma {:induction false} TiersSplit(s: seq<Ranked>, lo: int, mid: int, hi: int)
    requires lo <= mid <= hi
    ensures Tiers(s, lo, hi) == Tiers(s, lo, mid) + Tiers(s, mid, hi)
    decreases hi - mid
  {
    if mid < hi {
      TiersSplit(s, lo, mid, hi - 1);
    }
  }

  /** Tiers below or above the newcomer's do not change. */
  lemma {:induction false} TiersUnchanged(s: seq<Ranked>, x: Ranked, lo: int, hi: int)
    requires !(lo <= Tier(x) < hi)
    ensures Tiers(s + [x], lo, hi) == Tiers(s, lo, hi)
    decreases hi - lo
  {
    if lo < hi {
      TiersUnchanged(s, x, lo, hi - 1);
      SelectAppend(s, x, InTier(hi - 1));
    }
  }

  lemma PlaceKeepsTiers(s: seq<Ranked>, x: Ranked)
    requires -1 <= x.good <= 1
    ensures Place(Tiered(s), x) == Tiered(s + [x])
  {
    var t := Tier(x);
    TiersSplit(s, 0, t + 1, 6);
    TiersSplit(s + [x], 0, t + 1, 6);
    TiersUnchanged(s, x, t + 1, 6);
    TiersUnchanged(s, x, 0, t);
    SelectAppend(s, x, InTier(t));
    assert Tiers(s + [x], 0, t + 1) == Tiers(s, 0, t + 1) + [x];
    TiersHave(s, 0, t + 1);
    TiersHave(s, t + 1, 6);
    PlaceSplits(Tiers(s, 0, t + 1), Tiers(s, t + 1, 6), x);
  }

  /** The insertion sort a stable sort makes of a short list. */
  method SortStable(a: array<Ranked>)
    requires Scored(a[..])
    modifies a
    ensures a[..] == Tiered(old(a[..]))
  {
    ghost var was := a[..];
    NoTiers(was[..0], 0, 6);
    for i := 0 to a.Length
      invariant a[..i] == Tiered(was[..i])
      invariant a[i..] == was[i..]
      invariant Scored(a[..])
    {
      assert a[i] in a[..];
      NextPlace(was, i);
      SiftDown(a, i);
    }
    assert was[..a.Length] == was;
    assert a[..a.Length] == a[..];
  }

  lemma NextPlace(s: seq<Ranked>, i: nat)
    requires i < |s| && -1 <= s[i].good <= 1
    ensures Place(Tiered(s[..i]), s[i]) == Tiered(s[..i + 1])
  {
    PlaceKeepsTiers(s[..i], s[i]);
    assert s[..i + 1] == s[..i] + [s[i]];
  }

  /** Swaps the element at `i` down to its place. */
  method SiftDown(a: array<Ranked>, i: nat)
    requires i < a.Length && Scored(a[..])
    modifies a
    ensures a[..i + 1] == Place(old(a[..i]), old(a[i]))
    ensures a[i + 1..] == old(a[i + 1..])
    ensures Scored(a[..])
  {
    ghost var was := a[..];
    var j := i;
    while j > 0 && CompareAttempts(a[j], a[j - 1]) < 0
      invariant 0 <= j <= i
      invariant IsShifted(a[..], was, j, i)
      invariant forall k :: j <= k < i ==> Tier(was[i]) < Tier(was[k])
    {
      NeighboursCompare(a[..], was, j, i);
      SwapShifts(a[..], was, j, i);
      a[j], a[j - 1] := a[j - 1], a[j];
      j := j - 1;
    }
    if j > 0 {
      NeighboursCompare(a[..], was, j, i);
    }
    ShiftedIsPlaced(a[..], was, j, i);
    assert a[..i + 1] == a[..][..i + 1] && a[i + 1..] == a[..][i + 1..];
  }

  lemma ShiftedIsPlaced(now: seq<Ranked>, was: seq<Ranked>, j: nat, i: nat)
    requires j <= i < |was| && IsShifted(now, was, j, i) && Scored(was)
    requires (j > 0 ==> Tier(was[j - 1]) <= Tier(was[i])) && forall k :: j <= k < i ==> Tier(was[i]) < Tier(was[k])
    ensures now[..i + 1] == Place(was[..i], was[i]) && now[i + 1..] == was[i + 1..] && Scored(now)
  {
    PlaceAt(was[..i], was[i], j);
    assert was[..i][..j] == was[..j] && was[..i][j..] == was[j..i];
    ShiftedPrefix(now, was, j, i);
    ShiftedIsScored(now, was, j, i);
  }

  lemma ShiftedPrefix(now: seq<Ranked>, was: seq<Ranked>, j: nat, i: nat)
    requires j <= i < |was| && IsShifted(now, was, j, i)
    ensures now[..i + 1] == was[..j] + [was[i]] + was[j..i]
    ensures now[i + 1..] == was[i + 1..]
  {
    var placed := was[..j] + [was[i]] + was[j..i];
    forall k | 0 <= k < i + 1 ensures now[k] == placed[k] {
      if k > j {
        assert placed[k] == was[j..i][k - j - 1] == was[k - 1];
      }
    }
    assert now[..i + 1] == placed;
  }

  /** The element at `i` stands at `j`, those between one place up. */
  predicate IsShifted(now: seq<Ranked>, was: seq<Ranked>, j: nat, i: nat)
    requires j <= i < |was|
  {
    && |now| == |was| && now[j] == was[i]
    && (forall k :: 0 <= k < j ==> now[k] == was[k])
    && (forall k :: j < k <= i ==> now[k] == was[k - 1])
    && (forall k :: i < k < |was| ==> now[k] == was[k])
  }

  lemma ScoresOf(s: seq<Ranked>, x: Ranked, y: Ranked)
    requires Scored(s) && x in s && y in s
    ensures -1 <= x.good <= 1 && -1 <= y.good <= 1
  {
  }

  lemma SwapShifts(now: seq<Ranked>, was: seq<Ranked>, j: nat, i: nat)
    requires 0 < j <= i < |was| && IsShifted(now, was, j, i)
    ensures IsShifted(now[j := now[j - 1]][j - 1 := now[j]], was, j - 1, i)
  {
  }

  lemma NeighboursCompare(now: seq<Ranked>, was: seq<Ranked>, j: nat, i: nat)
    requires 0 < j <= i < |was| && IsShifted(now, was, j, i) && Scored(was)
    ensures CompareAttempts(now[j], now[j - 1]) < 0 <==> Tier(was[i]) < Tier(was[j - 1])
  {
    ScoresOf(was, was[i], was[j - 1]);
    CompareIsTierOrder(now[j], now[j - 1]);
  }

  lemma ShiftedIsScored(now: seq<Ranked>, was: seq<Ranked>, j: nat, i: nat)
    requires j <= i < |was| && IsShifted(now, was, j, i) && Scored(was)
    ensures Scored(now)
  {
  }

  lemma {:induction false} PlaceAt(s: seq<Ranked>, x: Ranked, j: nat)
    requires j <= |s| && (j > 0 ==> Tier(s[j - 1]) <= Tier(x))
    requires forall k :: j <= k < |s| ==> Tier(x) < Tier(s[k])
    ensures Place(s, x) == s[..j] + [x] + s[j..]
  {
    var n := |s|;
    if j < n {
      PlaceAt(s[..n - 1], x, j);
      assert s[..n - 1][..j] == s[..j];
      assert s[j..] == s[..n - 1][j..] + [s[n - 1]];
    } else {
      assert s[..j] == s;
    }
  }

  // ----- What the order means -----

  lemma {:induction false} TiersCount(s: seq<Ranked>, lo: int, hi: int, x: Ranked)
    ensures Occurrences(Tiers(s, lo, hi), x) == if lo <= Tier(x) < hi then Occurrences(s, x) else 0
    decreases hi - lo
  {
    if lo < hi {
      TiersCount(s, lo, hi - 1, x);
      if Tier(x) == hi - 1 {
        SelectKeepsOccurrences(s, InTier(hi - 1), x);
      } else {
        TierOfHas(s, hi - 1);
      }
    }
  }

  /** Nothing is lost, added or tried twice. */
  lemma TieredIsPermutation(s: seq<Ranked>)
    requires Scored(s)
    ensures multiset(Tiered(s)) == multiset(s)
  {
    forall x ensures Occurrences(Tiered(s), x) == Occurrences(s, x) {
      TiersCount(s, 0, 6, x);
      if x !in s {
        assert Occurrences(s, x) == 0;
      }
    }
    forall x ensures multiset(Tiered(s))[x] == multiset(s)[x] {
      assert Occurrences(Tiered(s), x) == Occurrences(s, x);
    }
  }

  lemma {:induction false} TiersAreSorted(s: seq<Ranked>, lo: int, hi: int)
    ensures forall i, j :: 0 <= i < j < |Tiers(s, lo, hi)| ==> Tier(Tiers(s, lo, hi)[i]) <= Tier(Tiers(s, lo, hi)[j])
    decreases hi - lo
  {
    if lo < hi {
      TiersAreSorted(s, lo, hi - 1);
      TiersHave(s, lo, hi - 1);
      TierOfHas(s, hi - 1);
    }
  }

  /** Attempts of one tier keep their order. */
  lemma {:induction false} TiersAreStable(s: seq<Ranked>, lo: int, hi: int, u: int)
    ensures TierOf(Tiers(s, lo, hi), u) == if lo <= u < hi then TierOf(s, u) else []
    decreases hi - lo
  {
    if lo < hi {
      TiersAreStable(s, lo, hi - 1, u);
      SelectConcat(Tiers(s, lo, hi - 1), TierOf(s, hi - 1), InTier(u));
      TierOfHas(s, hi - 1);
      if u == hi - 1 {
        SelectAll(TierOf(s, u), InTier(u));
      } else {
        SelectNone(TierOf(s, hi - 1), InTier(u));
      }
    }
  }

  lemma {:induction false} LowerTiersOfParts(mine: seq<Ranked>, theirs: seq<Ranked>, lo: int, hi: int)
    requires forall r :: r in theirs ==> Tier(r) >= hi
    ensures Tiers(mine + theirs, lo, hi) == Tiers(mine, lo, hi)
    decreases hi - lo
  {
    if lo < hi {
      LowerTiersOfParts(mine, theirs, lo, hi - 1);
      SelectConcat(mine, theirs, InTier(hi - 1));
      SelectNone(theirs, InTier(hi - 1));
    }
  }

  lemma {:induction false} UpperTiersOfParts(mine: seq<Ranked>, theirs: seq<Ranked>, lo: int, hi: int)
    requires forall r :: r in mine ==> Tier(r) < lo
    ensures Tiers(mine + theirs, lo, hi) == Tiers(theirs, lo, hi)
    decreases hi - lo
  {
    if lo < hi {
      UpperTiersOfParts(mine, theirs, lo, hi - 1);
      SelectConcat(mine, theirs, InTier(hi - 1));
      SelectNone(mine, InTier(hi - 1));
    }
  }

  lemma {:induction false} NoTiers(s: seq<Ranked>, lo: int, hi: int)
    requires forall r :: r in s ==> !(lo <= Tier(r) < hi)
    ensures Tiers(s, lo, hi) == []
    decreases hi - lo
  {
    if lo < hi {
      NoTiers(s, lo, hi - 1);
      SelectNone(s, InTier(hi - 1));
    }
  }

  /** A list that is preferred first is sorted part by part: no director's server moves
      ahead of a preferred one. */
  lemma PartsSortApart(mine: seq<Ranked>, theirs: seq<Ranked>)
    requires Scored(mine) && Scored(theirs)
    requires (forall r :: r in mine ==> r.attempt.preferred) && (forall r :: r in theirs ==> !r.attempt.preferred)
    ensures Tiered(mine + theirs) == Tiered(mine) + Tiered(theirs)
  {
    TiersSplit(mine + theirs, 0, 3, 6);
    LowerTiersOfParts(mine, theirs, 0, 3);
    UpperTiersOfParts(mine, theirs, 3, 6);
    TiersSplit(mine, 0, 3, 6);
    NoTiers(mine, 3, 6);
    TiersSplit(theirs, 0, 3, 6);
    NoTiers(theirs, 0, 3);
  }

  lemma {:induction false} TierOfFirst(s: seq<Ranked>)
    requires s != []
    ensures TierOf(s, Tier(s[0])) != [] && TierOf(s, Tier(s[0]))[0] == s[0]
  {
    if |s| > 1 {
      TierOfFirst(s[..|s| - 1]);
    } else {
      assert s[..0] == [];
      assert TierOf(s[..0], Tier(s[0])) == [];
    }
  }

  /** An attempt no other outranks stays first if it was first. */
  lemma BestStaysFirst(s: seq<Ranked>)
    requires s != [] && Scored(s) && forall r :: r in s ==> Tier(s[0]) <= Tier(r)
    ensures Tiered(s) != [] && Tiered(s)[0] == s[0]
  {
    TierOfFirst(s);
    var t := Tier(s[0]);
    assert s[0] in s;
    TiersSplit(s, 0, t + 1, 6);
    NoTiers(s, 0, t);
    assert Tiers(s, 0, t + 1) == TierOf(s, t);
  }

  // ----- Probing -----

  predicate InRange(heard: seq<nat>, n: nat) {
    forall k :: 0 <= k < |heard| ==> heard[k] < n
  }

  predicate Distinct(heard: seq<nat>) {
    forall j, k :: 0 <= j < k < |heard| ==> heard[j] != heard[k]
  }

  /** `arrivals` lists the attempts in the order their probes report, each once. */
  predicate IsArrivalOrder(arrivals: seq<nat>, n: nat) {
    && |arrivals| == n && InRange(arrivals, n) && Distinct(arrivals)
    && forall i :: 0 <= i < n ==> i in arrivals
  }

  /** By the time the first endpoint reported, some probe had said whether the path is a
      collection. */
  predicate AnsweredInTime(heard: seq<nat>, replies: seq<Reply>)
    requires InRange(heard, |replies|)
  {
    exists k :: 0 <= k < |heard| && replies[heard[k]].answered && 0 !in heard[..k]
  }

  /** The first endpoint responded well, and the question about collections was not
      asked or had been answered by the time it did. */
  predicate GoodEnough(heard: seq<nat>, replies: seq<Reply>, want: bool)
    requires InRange(heard, |replies|)
  {
    0 in heard && replies[0].outcome.Alive? && (want ==> AnsweredInTime(heard, replies))
  }

  /** The score of an endpoint: a failure is a failure whenever it arrives; being cut off
      counts as success exactly when the first endpoint was good enough. */
  function Verdict(reply: Reply, good: bool): int {
    match reply.outcome
    case Alive(_, _) => 1
    case Refused(_) => -1
    case CutOff => if good then 1 else 0
  }

  function Annotate(a: Attempt, reply: Reply): Attempt {
    if reply.outcome.Alive? && reply.outcome.age >= 0 then a.(cacheAge := Some(reply.outcome.age)) else a
  }

  function Ranking(attempts: seq<Attempt>, replies: seq<Reply>, good: bool): (r: seq<Ranked>)
    requires |replies| == |attempts|
    ensures Scored(r) && |r| == |attempts|
  {
    seq(|attempts|, i requires 0 <= i < |attempts| =>
      Ranked(Verdict(replies[i], good), Annotate(attempts[i], replies[i])))
  }

  function AttemptsOf(s: seq<Ranked>): seq<Attempt> {
    seq(|s|, i requires 0 <= i < |s| => s[i].attempt)
  }

  /** The size of the object as far as the probes heard of know: the largest reported,
      or -1. */
  predicate IsProbedSize(size: int, heard: seq<nat>, replies: seq<Reply>)
    requires InRange(heard, |replies|)
  {
    && size >= -1
    && (forall i :: i in heard && replies[i].outcome.Alive? ==> replies[i].outcome.size <= size)
    && (size == -1 || exists i :: i in heard && replies[i].outcome.Alive? && replies[i].outcome.size == size)
  }

  predicate IsCollectionAnswer(c: CollectionAnswer, heard: seq<nat>, replies: seq<Reply>)
    requires InRange(heard, |replies|)
  {
    && (c.answered <==> exists i :: i in heard && replies[i].answered)
    && (c.isCollection <==> exists i :: i in heard && replies[i].answered && replies[i].isCollection)
    && (c.throttled <==> exists i :: i in heard && replies[i].outcome.Refused? && replies[i].outcome.throttled)
  }

  function Score(finished: map<nat, int>, i: nat): int {
    if i in finished then finished[i] else 0
  }

  /** The score once the given probes have reported. */
  function ScoreSoFar(i: nat, heard: seq<nat>, replies: seq<Reply>, good: bool): int
    requires i < |replies|
  {
    if i in heard then Verdict(replies[i], good) else if good then 1 else 0
  }

  predicate AreScores(finished: map<nat, int>, heard: seq<nat>, replies: seq<Reply>, good: bool) {
    forall i :: 0 <= i < |replies| ==> Score(finished, i) == ScoreSoFar(i, heard, replies, good)
  }

  lemma HearingMakesGood(heard: seq<nat>, idx: nat, replies: seq<Reply>, want: bool, c: CollectionAnswer)
    requires idx < |replies| && InRange(heard, |replies|) && idx !in heard
    requires IsCollectionAnswer(c, heard + [idx], replies)
    ensures GoodEnough(heard + [idx], replies, want) <==>
      GoodEnough(heard, replies, want) || (idx == 0 && replies[idx].outcome.Alive? && (!want || c.answered))
  {
    var more := heard + [idx];
    assert forall k :: 0 <= k <= |heard| ==> more[..k] == heard[..k];
    assert AnsweredInTime(heard, replies) ==> AnsweredInTime(more, replies);
    if idx == 0 && c.answered {
      var i :| i in more && replies[i].answered;
      var k :| 0 <= k < |more| && more[k] == i;
      assert forall x :: x in heard[..k] ==> x in heard;
    }
    if 0 in heard && AnsweredInTime(more, replies) {
      var k :| 0 <= k < |more| && replies[more[k]].answered && 0 !in more[..k];
      assert more[..|heard|] == heard;
    }
  }

  /** sortAttempts, with the probes' replies in any order. */
  method SortAttempts(attempts: array<Attempt>, arrivals: seq<nat>, replies: seq<Reply>, want: bool)
    returns (size: int, collection: CollectionAnswer, results: seq<Attempt>)
    requires |replies| == attempts.Length && IsArrivalOrder(arrivals, attempts.Length)
    modifies attempts
    ensures attempts.Length == 0 || (attempts.Length == 1 && !want) ==>
      size == -1 && results == attempts[..] == old(attempts[..]) && collection == CollectionAnswer(false, false, false)
    ensures attempts.Length >= 2 || (attempts.Length == 1 && want) ==>
      && IsProbedSize(size, arrivals, replies) && IsCollectionAnswer(collection, arrivals, replies)
      && results == AttemptsOf(Tiered(Ranking(old(attempts[..]), replies, GoodEnough(arrivals, replies, want))))
      && exists at ::
           IsProbedOrder(results, old(attempts[..]), replies, FirstWasGoodEnough(arrivals, replies, want), at)
  {
    var n := attempts.Length;
    if (n < 2 && !want) || n == 0 {
      return -1, CollectionAnswer(false, false, false), attempts[..];
    }
    ghost var was := attempts[..];
    var finished;
    size, collection, finished := GatherReplies(attempts, arrivals, replies, want);
    results := Rank(attempts, finished, was, replies, arrivals, GoodEnough(arrivals, replies, want));
    ghost var at := SortedByReplies(was, arrivals, replies, want, results);
  }

  /** Hears every probe once, in the order they report. */
  method GatherReplies(attempts: array<Attempt>, arrivals: seq<nat>, replies: seq<Reply>, want: bool)
    returns (size: int, collection: CollectionAnswer, finished: map<nat, int>)
    requires |replies| == attempts.Length && IsArrivalOrder(arrivals, attempts.Length)
    modifies attempts
    ensures IsProbedSize(size, arrivals, replies) && IsCollectionAnswer(collection, arrivals, replies)
    ensures AreScores(finished, arrivals, replies, GoodEnough(arrivals, replies, want))
    ensures AreAnnotated(attempts[..], old(attempts[..]), arrivals, replies)
  {
    size := -1;
    collection := CollectionAnswer(false, false, false);
    finished := map[];
    ghost var was := attempts[..];
    for ctr := 0 to attempts.Length
      invariant InRange(arrivals[..ctr], |replies|)
      invariant Gathered(size, collection, finished, arrivals[..ctr], replies, want)
      invariant AreAnnotated(attempts[..], was, arrivals[..ctr], replies)
    {
      NewlyHeard(arrivals, ctr, |replies|);
      size, collection, finished := Hear(size, collection, finished, replies, want, arrivals[..ctr], arrivals[ctr]);
      HearAge(attempts, was, replies, arrivals[..ctr], arrivals[ctr]);
    }
    assert arrivals[..|arrivals|] == arrivals;
  }

  predicate Gathered(size: int, collection: CollectionAnswer, finished: map<nat, int>, heard: seq<nat>,
                     replies: seq<Reply>, want: bool)
    requires InRange(heard, |replies|)
  {
    && IsCollectionAnswer(collection, heard, replies)
    && IsProbedSize(size, heard, replies)
    && AreScores(finished, heard, replies, GoodEnough(heard, replies, want))
  }

  /** One reply more. */
  method Hear(size: int, collection: CollectionAnswer, finished: map<nat, int>, replies: seq<Reply>, want: bool,
              ghost heard: seq<nat>, idx: nat)
    returns (size': int, collection': CollectionAnswer, finished': map<nat, int>)
    requires InRange(heard, |replies|) && idx < |replies| && idx !in heard
    requires Gathered(size, collection, finished, heard, replies, want)
    ensures Gathered(size', collection', finished', heard + [idx], replies, want)
  {
    collection' := HearCollection(collection, replies, heard, idx);
    size' := HearSize(size, replies, heard, idx);
    HearingMakesGood(heard, idx, replies, want, collection');
    var completes := idx == 0 && replies[idx].outcome.Alive? && (!want || collection'.answered);
    finished' := HearScore(finished, replies, heard, idx, completes, GoodEnough(heard, replies, want));
  }

  lemma NewlyHeard(arrivals: seq<nat>, ctr: nat, n: nat)
    requires ctr < |arrivals| && Distinct(arrivals) && InRange(arrivals, n)
    ensures InRange(arrivals[..ctr], n) && InRange(arrivals[..ctr + 1], n) && arrivals[ctr] < n
    ensures arrivals[..ctr + 1] == arrivals[..ctr] + [arrivals[ctr]]
    ensures arrivals[ctr] !in arrivals[..ctr]
  {
  }

  predicate AreAnnotated(now: seq<Attempt>, was: seq<Attempt>, heard: seq<nat>, replies: seq<Reply>)
    requires |now| == |was| == |replies|
  {
    forall i :: 0 <= i < |now| ==> now[i] == if i in heard then Annotate(was[i], replies[i]) else was[i]
  }

  method HearAge(attempts: array<Attempt>, ghost was: seq<Attempt>, replies: seq<Reply>, ghost heard: seq<nat>,
                 idx: nat)
    requires attempts.Length == |was| == |replies| && idx < |replies| && idx !in heard
    requires AreAnnotated(attempts[..], was, heard, replies)
    modifies attempts
    ensures AreAnnotated(attempts[..], was, heard + [idx], replies)
  {
    var outcome := replies[idx].outcome;
    if outcome.Alive? && outcome.age >= 0 {
      attempts[idx] := attempts[idx].(cacheAge := Some(outcome.age));
    }
  }

  /** Sorts the attempts by their scores, when every probe has reported. */
  method Rank(attempts: array<Attempt>, finished: map<nat, int>, ghost was: seq<Attempt>, replies: seq<Reply>,
              ghost heard: seq<nat>, ghost good: bool)
    returns (results: seq<Attempt>)
    requires attempts.Length == |was| == |replies|
    requires forall i :: 0 <= i < |was| ==> i in heard
    requires AreScores(finished, heard, replies, good) && AreAnnotated(attempts[..], was, heard, replies)
    ensures results == AttemptsOf(Tiered(Ranking(was, replies, good)))
  {
    var ranked := new Ranked[attempts.Length](i requires 0 <= i < attempts.Length reads attempts =>
      Ranked(Score(finished, i), attempts[i]));
    assert ranked[..] == Ranking(was, replies, good) by {
      forall i | 0 <= i < |was| ensures ranked[i] == Ranking(was, replies, good)[i] {
        assert i in heard && attempts[i] == attempts[..][i];
      }
    }
    SortStable(ranked);
    results := AttemptsOf(ranked[..]);
  }

  method HearCollection(collection: CollectionAnswer, replies: seq<Reply>, ghost heard: seq<nat>, idx: nat)
    returns (r: CollectionAnswer)
    requires idx < |replies| && InRange(heard, |replies|) && IsCollectionAnswer(collection, heard, replies)
    ensures IsCollectionAnswer(r, heard + [idx], replies)
  {
    r := collection;
    var result := replies[idx];
    if result.answered {
      r := r.(answered := true);
      if result.isCollection {
        r := r.(isCollection := true);
      }
    }
    if !r.throttled && result.outcome.Refused? && result.outcome.throttled {
      r := r.(throttled := true);
    }
  }

  method HearSize(size: int, replies: seq<Reply>, ghost heard: seq<nat>, idx: nat) returns (r: int)
    requires idx < |replies| && InRange(heard, |replies|) && IsProbedSize(size, heard, replies)
    ensures IsProbedSize(r, heard + [idx], replies)
  {
    r := size;
    var result := replies[idx].outcome;
    if result.Alive? && size <= result.size {
      r := result.size;
    }
  }

  /** Good enough: whoever has not failed counts as a success. */
  method PromoteOthers(finished: map<nat, int>, n: nat) returns (r: map<nat, int>)
    ensures forall i :: 0 <= i < n ==> Score(r, i) == if Score(finished, i) != -1 then 1 else -1
  {
    r := finished;
    for ctr := 0 to n
      invariant forall i :: 0 <= i < ctr ==> Score(r, i) == if Score(finished, i) != -1 then 1 else -1
      invariant forall i :: ctr <= i < n ==> Score(r, i) == Score(finished, i)
    {
      if Score(r, ctr) != -1 {
        r := r[ctr := 1];
      }
    }
  }

  method HearScore(finished: map<nat, int>, replies: seq<Reply>, ghost heard: seq<nat>, idx: nat, completes: bool,
                   ghost good: bool)
    returns (r: map<nat, int>)
    requires idx < |replies| && idx !in heard && AreScores(finished, heard, replies, good)
    requires completes ==> replies[idx].outcome.Alive?
    ensures AreScores(r, heard + [idx], replies, good || completes)
  {
    r := finished;
    match replies[idx].outcome {
      case Refused(_) =>
        r := r[idx := -1];
      case CutOff =>
      case Alive(_, _) =>
        r := r[idx := 1];
        if completes {
          r := PromoteOthers(r, |replies|);
        }
    }
    forall i | 0 <= i < |replies| ensures Score(r, i) == ScoreSoFar(i, heard + [idx], replies, good || completes) {
      assert Score(finished, i) == ScoreSoFar(i, heard, replies, good);
    }
  }

  // ----- What the probes make of the order -----

  predicate Rises(at: seq<nat>) {
    forall k, l :: 0 <= k < l < |at| ==> at[k] < at[l]
  }

  /** `at` says from which place each element of a tier came. */
  predicate AreTierPlaces(s: seq<Ranked>, t: int, at: seq<nat>) {
    && |at| == |TierOf(s, t)| && Rises(at)
    && (forall k :: 0 <= k < |at| ==> at[k] < |s| && s[at[k]] == TierOf(s, t)[k] && Tier(s[at[k]]) == t)
    && forall i :: 0 <= i < |s| && Tier(s[i]) == t ==> i in at
  }

  lemma {:induction false} TierPlaces(s: seq<Ranked>, t: int) returns (at: seq<nat>)
    ensures AreTierPlaces(s, t, at)
  {
    at := [];
    if s != [] {
      var n := |s| - 1;
      var before := TierPlaces(s[..n], t);
      if Tier(s[n]) == t {
        at := before + [n];
        MoreTierPlaces(s, t, before);
      } else {
        at := before;
      }
    }
  }

  lemma MoreTierPlaces(s: seq<Ranked>, t: int, before: seq<nat>)
    requires s != [] && AreTierPlaces(s[..|s| - 1], t, before) && Tier(s[|s| - 1]) == t
    ensures AreTierPlaces(s, t, before + [|s| - 1])
  {
    var n := |s| - 1;
    var at := before + [n];
    forall i | 0 <= i < |s| && Tier(s[i]) == t ensures i in at {
      if i < n {
        assert s[..n][i] == s[i] && i in before;
      } else {
        assert at[|before|] == n;
      }
    }
  }

  /** The same for tiers in sequence: lower tiers first, and in a tier the order is kept. */
  predicate ArePlaces(s: seq<Ranked>, lo: int, hi: int, at: seq<nat>) {
    && |at| == |Tiers(s, lo, hi)|
    && (forall k :: 0 <= k < |at| ==> at[k] < |s| && s[at[k]] == Tiers(s, lo, hi)[k] && lo <= Tier(s[at[k]]) < hi)
    && (forall k, l :: 0 <= k < l < |at| ==> InOrder(s, at[k], at[l]))
    && forall i :: 0 <= i < |s| && lo <= Tier(s[i]) < hi ==> i in at
  }

  predicate InOrder(s: seq<Ranked>, i: nat, j: nat) {
    i < |s| && j < |s| && (Tier(s[i]) < Tier(s[j]) || (Tier(s[i]) == Tier(s[j]) && i < j))
  }

  lemma {:induction false} Places(s: seq<Ranked>, lo: int, hi: int) returns (at: seq<nat>)
    ensures ArePlaces(s, lo, hi, at)
    decreases hi - lo
  {
    at := [];
    if lo < hi {
      var before := Places(s, lo, hi - 1);
      var last := TierPlaces(s, hi - 1);
      at := before + last;
      MorePlaces(s, lo, hi, before, last);
    }
  }

  lemma MorePlaces(s: seq<Ranked>, lo: int, hi: int, before: seq<nat>, last: seq<nat>)
    requires lo < hi && ArePlaces(s, lo, hi - 1, before) && AreTierPlaces(s, hi - 1, last)
    ensures ArePlaces(s, lo, hi, before + last)
  {
    PlacesInOrder(s, lo, hi, before, last);
    AllPlaces(s, lo, hi, before, last);
  }

  lemma AllPlaces(s: seq<Ranked>, lo: int, hi: int, before: seq<nat>, last: seq<nat>)
    requires forall i :: 0 <= i < |s| && lo <= Tier(s[i]) < hi - 1 ==> i in before
    requires forall i :: 0 <= i < |s| && Tier(s[i]) == hi - 1 ==> i in last
    ensures forall i :: 0 <= i < |s| && lo <= Tier(s[i]) < hi ==> i in before + last
  {
  }

  lemma PlacesInOrder(s: seq<Ranked>, lo: int, hi: int, before: seq<nat>, last: seq<nat>)
    requires lo < hi && ArePlaces(s, lo, hi - 1, before) && AreTierPlaces(s, hi - 1, last)
    ensures var at := before + last; forall k, l :: 0 <= k < l < |at| ==> InOrder(s, at[k], at[l])
  {
    var at, n := before + last, |before|;
    forall k, l | 0 <= k < l < |at| ensures InOrder(s, at[k], at[l]) {
      if l < n {
        assert InOrder(s, before[k], before[l]);
      } else if k < n {
        assert Tier(s[before[k]]) < hi - 1 && Tier(s[last[l - n]]) == hi - 1;
      } else {
        assert last[k - n] < last[l - n];
      }
    }
  }

  /** The first endpoint responded, and if the question about collections was asked, some
      probe had answered it when it did, its own included. */
  ghost predicate FirstWasGoodEnough(arrivals: seq<nat>, replies: seq<Reply>, want: bool)
    requires InRange(arrivals, |replies|)
  {
    && replies != [] && replies[0].outcome.Alive?
    && (want ==> exists k, m :: 0 <= k <= m < |arrivals| && arrivals[m] == 0 && replies[arrivals[k]].answered)
  }

  lemma PrefixOrLater(s: seq<nat>, k: nat, m: nat)
    requires k <= |s| && m < |s|
    ensures s[m] in s[..k] || k <= m
  {
    if m < k {
      assert s[..k][m] == s[m];
    }
  }

  lemma GoodEnoughMeans(arrivals: seq<nat>, replies: seq<Reply>, want: bool)
    requires IsArrivalOrder(arrivals, |replies|)
    ensures GoodEnough(arrivals, replies, want) <==> FirstWasGoodEnough(arrivals, replies, want)
  {
    if replies != [] {
      assert 0 in arrivals;
      var m :| 0 <= m < |arrivals| && arrivals[m] == 0;
      if AnsweredInTime(arrivals, replies) {
        var k :| 0 <= k < |arrivals| && replies[arrivals[k]].answered && 0 !in arrivals[..k];
        PrefixOrLater(arrivals, k, m);
      }
      if k, l :| 0 <= k <= l < |arrivals| && arrivals[l] == 0 && replies[arrivals[k]].answered {
        assert l == m;
        assert 0 !in arrivals[..k];
        assert AnsweredInTime(arrivals, replies);
      }
    }
  }

  /** Of two attempts, `i` is rightly tried before `j`: a preferred server before one of the
      director's; in one group nothing whose probe was refused before anything else, and
      nothing cut off before one that is alive, unless the first endpoint was good enough;
      and what the probes do not tell apart in its own order. */
  predicate RightlyBefore(attempts: seq<Attempt>, replies: seq<Reply>, good: bool, i: nat, j: nat)
    requires i < |attempts| == |replies| && j < |attempts|
  {
    var a, b := replies[i].outcome, replies[j].outcome;
    && (attempts[j].preferred ==> attempts[i].preferred)
    && (attempts[i].preferred == attempts[j].preferred ==>
          && (a.Refused? ==> b.Refused?)
          && (a.CutOff? && b.Alive? ==> good)
          && ((a.Refused? <==> b.Refused?) && (good || (a.Alive? <==> b.Alive?)) ==> i < j))
  }

  /** An attempt as it is tried: with the age its probe reported, if it is alive. */
  predicate IsTriedAs(tried: Attempt, attempt: Attempt, reply: Reply) {
    && tried.endpoint == attempt.endpoint && tried.preferred == attempt.preferred
    && match reply.outcome
       case Alive(_, age) => tried.cacheAge == if age >= 0 then Some(age) else attempt.cacheAge
       case _ => tried.cacheAge == attempt.cacheAge
  }

  /** The order in which attempts are tried once their probes have reported: each attempt
      once, and each rightly before all that follow it. */
  ghost predicate IsProbedOrder(results: seq<Attempt>, attempts: seq<Attempt>, replies: seq<Reply>, good: bool,
                                at: seq<nat>)
    requires |replies| == |attempts|
  {
    && |at| == |results| == |attempts| && InRange(at, |attempts|) && Distinct(at)
    && (forall k :: 0 <= k < |at| ==> IsTriedAs(results[k], attempts[at[k]], replies[at[k]]))
    && forall k, l :: 0 <= k < l < |at| ==> RightlyBefore(attempts, replies, good, at[k], at[l])
  }

  lemma RankingIsProbedOrder(attempts: seq<Attempt>, replies: seq<Reply>, good: bool) returns (at: seq<nat>)
    requires |replies| == |attempts|
    ensures IsProbedOrder(AttemptsOf(Tiered(Ranking(attempts, replies, good))), attempts, replies, good, at)
  {
    var s := Ranking(attempts, replies, good);
    at := Places(s, 0, 6);
    TieredIsPermutation(s);
    assert |multiset(Tiered(s))| == |multiset(s)|;
    forall k, l | 0 <= k < l < |at| ensures at[k] != at[l] && RightlyBefore(attempts, replies, good, at[k], at[l]) {
      assert InOrder(s, at[k], at[l]);
      TierOrderIsRight(attempts, replies, good, at[k], at[l]);
    }
  }

  lemma TierOrderIsRight(attempts: seq<Attempt>, replies: seq<Reply>, good: bool, i: nat, j: nat)
    requires i < |attempts| == |replies| && j < |attempts| && InOrder(Ranking(attempts, replies, good), i, j)
    ensures RightlyBefore(attempts, replies, good, i, j)
  {
    var s := Ranking(attempts, replies, good);
    assert s[i] == Ranked(Verdict(replies[i], good), Annotate(attempts[i], replies[i]));
    assert s[j] == Ranked(Verdict(replies[j], good), Annotate(attempts[j], replies[j]));
  }

  /** What sortAttempts answers, in terms of the replies and their order of arrival. */
  lemma SortedByReplies(attempts: seq<Attempt>, arrivals: seq<nat>, replies: seq<Reply>, want: bool,
                        results: seq<Attempt>) returns (at: seq<nat>)
    requires |replies| == |attempts| && IsArrivalOrder(arrivals, |attempts|)
    requires results == AttemptsOf(Tiered(Ranking(attempts, replies, GoodEnough(arrivals, replies, want))))
    ensures IsProbedOrder(results, attempts, replies, FirstWasGoodEnough(arrivals, replies, want), at)
  {
    GoodEnoughMeans(arrivals, replies, want);
    at := RankingIsProbedOrder(attempts, replies, GoodEnough(arrivals, replies, want));
  }

  // ----- End to end -----

  /** A live first endpoint is tried first: nothing overtakes it. */
  lemma LiveFirstStaysFirst(attempts: seq<Attempt>, replies: seq<Reply>, good: bool)
    requires attempts != [] && |replies| == |attempts| && replies[0].outcome.Alive?
    requires attempts[0].preferred || forall a :: a in attempts ==> !a.preferred
    ensures var results := AttemptsOf(Tiered(Ranking(attempts, replies, good)));
      results != [] && results[0] == Annotate(attempts[0], replies[0])
  {
    var s := Ranking(attempts, replies, good);
    forall r | r in s ensures Tier(s[0]) <= Tier(r) {
      var i :| 0 <= i < |s| && s[i] == r;
      assert attempts[i] in attempts;
    }
    BestStaysFirst(s);
  }

  predicate AllFrom(attempts: seq<Attempt>, servers: seq<Server>, details: string -> seq<Endpoint>) {
    forall a :: a in attempts ==> exists s :: s in servers && a.endpoint in details(s.text)
  }

  /** The whole way from the servers to the attempts: in whatever order the probes
      report, exactly the attempts built are tried, all those of preferred servers
      before all those of the director's, each group live first, then unknown, then
      failed, in its own order otherwise. */
  lemma DownloadOrder(director: seq<Server>, preferred: seq<Server>, details: string -> seq<Endpoint>, cap: nat,
                      replies: seq<Reply>, good: bool)
    returns (mine: seq<Ranked>, theirs: seq<Ranked>)
    requires var attempts := DownloadAttempts(director, preferred, details, cap); |replies| == |attempts|
    ensures var attempts := DownloadAttempts(director, preferred, details, cap);
      && mine + theirs == Ranking(attempts, replies, good)
      && AttemptsOf(Tiered(Ranking(attempts, replies, good))) == AttemptsOf(Tiered(mine)) + AttemptsOf(Tiered(theirs))
    ensures multiset(Tiered(mine)) == multiset(mine) && multiset(Tiered(theirs)) == multiset(theirs)
    ensures (forall r :: r in mine ==> r.attempt.preferred) && (forall r :: r in theirs ==> !r.attempt.preferred)
    ensures AllFrom(AttemptsOf(mine), Select(preferred, Named()), details)
    ensures AllFrom(AttemptsOf(theirs), DirectorPart(director, preferred, cap), details)
  {
    var a := Expand(Select(preferred, Named()), details, true);
    var b := Expand(DirectorPart(director, preferred, cap), details, false);
    if !WellFormed(preferred) {
      mine, theirs := [], [];
      SortedParts(mine, theirs);
      TieredIsPermutation([]);
      return;
    } else {
      mine := RankingOfPart(a, replies[..|a|], good, Select(preferred, Named()), details, true);
      theirs := RankingOfPart(b, replies[|a|..], good, DirectorPart(director, preferred, cap), details, false);
    }
    RankingOfParts(a, b, replies, good);
    SortedParts(mine, theirs);
    TieredIsPermutation(mine);
    TieredIsPermutation(theirs);
  }

  lemma RankingOfParts(a: seq<Attempt>, b: seq<Attempt>, replies: seq<Reply>, good: bool)
    requires |replies| == |a| + |b|
    ensures Ranking(a + b, replies, good) == Ranking(a, replies[..|a|], good) + Ranking(b, replies[|a|..], good)
  {
  }

  lemma SortedParts(mine: seq<Ranked>, theirs: seq<Ranked>)
    requires Scored(mine) && Scored(theirs)
    requires (forall r :: r in mine ==> r.attempt.preferred) && (forall r :: r in theirs ==> !r.attempt.preferred)
    ensures AttemptsOf(Tiered(mine + theirs)) == AttemptsOf(Tiered(mine)) + AttemptsOf(Tiered(theirs))
  {
    PartsSortApart(mine, theirs);
    AttemptsOfConcat(Tiered(mine), Tiered(theirs));
  }

  lemma AttemptsOfConcat(a: seq<Ranked>, b: seq<Ranked>)
    ensures AttemptsOf(a + b) == AttemptsOf(a) + AttemptsOf(b)
  {
  }

  lemma RankingOfPart(part: seq<Attempt>, replies: seq<Reply>, good: bool, servers: seq<Server>,
                      details: string -> seq<Endpoint>, preferred: bool) returns (r: seq<Ranked>)
    requires part == Expand(servers, details, preferred) && |replies| == |part|
    ensures r == Ranking(part, replies, good)
    ensures (forall x :: x in r ==> x.attempt.preferred == preferred) && AllFrom(AttemptsOf(r), servers, details)
  {
    r := Ranking(part, replies, good);
    ExpandMarks(servers, details, preferred);
    ExpandComesFrom(servers, details, preferred);
    assert forall i :: 0 <= i < |r| ==> r[i].attempt == Annotate(part[i], replies[i]) && part[i] in part;
  }

  lemma {:induction false} ExpandComesFrom(servers: seq<Server>, details: string -> seq<Endpoint>, preferred: bool)
    ensures AllFrom(Expand(servers, details, preferred), servers, details)
  {
    if servers != [] {
      var n := |servers| - 1;
      ExpandComesFrom(servers[..n], details, preferred);
      assert servers[n] in servers;
    }
  }
}
