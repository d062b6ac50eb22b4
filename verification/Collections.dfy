/** Small facts about finite sums, selections and occurrence counts over
    sequences and maps, shared by the protocol models. */
module Collections {

  datatype Option<+T> = None | Some(value: T)

  newtype byte = b: int | 0 <= b < 256

  /** The sum of a weight over a sequence. */
  function Sum<T>(s: seq<T>, w: T -> int): int {
    if s == [] then 0 else Sum(s[..|s| - 1], w) + w(s[|s| - 1])
  }

  lemma SumAppend<T>(s: seq<T>, x: T, w: T -> int)
    ensures Sum(s + [x], w) == Sum(s, w) + w(x)
  {
    assert (s + [x])[..|s|] == s;
  }

  lemma {:induction false} SumHead<T>(s: seq<T>, w: T -> int)
    requires s != []
    ensures Sum(s, w) == w(s[0]) + Sum(s[1..], w)
  {
    if |s| == 1 {
    } else {
      SumHead(s[..|s| - 1], w);
      assert s[..|s| - 1][1..] == s[1..][..|s| - 2];
    }
  }

  lemma {:induction false} SumUpdate<T>(s: seq<T>, i: nat, x: T, w: T -> int)
    requires i < |s|
    ensures Sum(s[i := x], w) == Sum(s, w) - w(s[i]) + w(x)
  {
    if i == |s| - 1 {
      assert s[i := x][..i] == s[..i];
    } else {
      SumUpdate(s[..|s| - 1], i, x, w);
      assert s[i := x][..|s| - 1] == s[..|s| - 1][i := x];
    }
  }

  lemma {:induction false} SumPointwise<T>(s: seq<T>, r: seq<T>, w: T -> int)
    requires |s| == |r|
    requires forall i :: 0 <= i < |s| ==> w(s[i]) == w(r[i])
    ensures Sum(s, w) == Sum(r, w)
  {
    if s != [] {
      SumPointwise(s[..|s| - 1], r[..|r| - 1], w);
    }
  }

  lemma {:induction false} SumDifference<T>(s: seq<T>, v: T -> int, w: T -> int, x: T -> int, y: T -> int)
    requires forall i :: 0 <= i < |s| ==> v(s[i]) - w(s[i]) == x(s[i]) - y(s[i])
    ensures Sum(s, v) - Sum(s, w) == Sum(s, x) - Sum(s, y)
  {
    if s != [] {
      SumDifference(s[..|s| - 1], v, w, x, y);
    }
  }

  lemma {:induction false} SumPlus<T>(s: seq<T>, v: T -> int, w: T -> int, x: T -> int)
    requires forall i :: 0 <= i < |s| ==> v(s[i]) == w(s[i]) + x(s[i])
    ensures Sum(s, v) == Sum(s, w) + Sum(s, x)
  {
    if s != [] {
      SumPlus(s[..|s| - 1], v, w, x);
    }
  }

  lemma {:induction false} SumOrder<T>(s: seq<T>, v: T -> int, w: T -> int)
    requires forall i :: 0 <= i < |s| ==> v(s[i]) <= w(s[i])
    ensures Sum(s, v) <= Sum(s, w)
  {
    if s != [] {
      SumOrder(s[..|s| - 1], v, w);
    }
  }

  lemma {:induction false} SumOfZeros<T>(s: seq<T>, w: T -> int)
    requires forall i :: 0 <= i < |s| ==> w(s[i]) == 0
    ensures Sum(s, w) == 0
  {
    if s != [] {
      SumOfZeros(s[..|s| - 1], w);
    }
  }

  /** A sum of non-negative weights bounds each of its terms. */
  lemma {:induction false} SumBoundsTerm<T>(s: seq<T>, w: T -> int)
    requires forall i :: 0 <= i < |s| ==> w(s[i]) >= 0
    ensures Sum(s, w) >= 0
    ensures forall i :: 0 <= i < |s| ==> w(s[i]) <= Sum(s, w)
  {
    if s != [] {
      SumBoundsTerm(s[..|s| - 1], w);
    }
  }

  /** A positive sum of non-negative weights has a positive term. */
  lemma {:induction false} PositiveSumHasTerm<T>(s: seq<T>, w: T -> int) returns (i: nat)
    requires Sum(s, w) > 0
    ensures i < |s| && w(s[i]) > 0
  {
    if w(s[|s| - 1]) > 0 {
      i := |s| - 1;
    } else {
      i := PositiveSumHasTerm(s[..|s| - 1], w);
    }
  }

  /** The subsequence of the elements that satisfy `p`, in order. */
  function Select<T>(s: seq<T>, p: T -> bool): seq<T> {
    if s == [] then []
    else if p(s[|s| - 1]) then Select(s[..|s| - 1], p) + [s[|s| - 1]]
    else Select(s[..|s| - 1], p)
  }

  lemma SelectAppend<T>(s: seq<T>, x: T, p: T -> bool)
    ensures Select(s + [x], p) == if p(x) then Select(s, p) + [x] else Select(s, p)
  {
    assert (s + [x])[..|s|] == s;
  }

  lemma {:induction false} SelectConcat<T>(s: seq<T>, r: seq<T>, p: T -> bool)
    ensures Select(s + r, p) == Select(s, p) + Select(r, p)
  {
    if r == [] {
      assert s + r == s;
    } else {
      SelectConcat(s, r[..|r| - 1], p);
      assert (s + r)[..|s + r| - 1] == s + r[..|r| - 1];
    }
  }

  lemma {:induction false} SelectAll<T>(s: seq<T>, p: T -> bool)
    requires forall x :: x in s ==> p(x)
    ensures Select(s, p) == s
  {
    if s != [] {
      SelectAll(s[..|s| - 1], p);
    }
  }

  lemma {:induction false} SelectNone<T>(s: seq<T>, p: T -> bool)
    requires forall x :: x in s ==> !p(x)
    ensures Select(s, p) == []
  {
    if s != [] {
      SelectNone(s[..|s| - 1], p);
    }
  }

  /** The results of a list-valued function over a sequence, one after another. */
  function FlatMap<S, T>(s: seq<S>, f: S -> seq<T>): seq<T> {
    if s == [] then [] else FlatMap(s[..|s| - 1], f) + f(s[|s| - 1])
  }

  lemma FlatMapAppend<S, T>(s: seq<S>, x: S, f: S -> seq<T>)
    ensures FlatMap(s + [x], f) == FlatMap(s, f) + f(x)
  {
    assert (s + [x])[..|s|] == s;
  }

  lemma FlatMapStep<S, T>(s: seq<S>, n: nat, f: S -> seq<T>, before: seq<T>, next: seq<T>)
    requires n < |s| && before == FlatMap(s[..n], f) && next == f(s[n])
    ensures before + next == FlatMap(s[..n + 1], f)
  {
    assert s[..n + 1][..n] == s[..n];
  }

  lemma FlatMapOne<S, T>(x: S, f: S -> seq<T>)
    ensures FlatMap([x], f) == f(x)
  {
    FlatMapAppend([], x, f);
    assert [] + [x] == [x];
  }

  lemma {:induction false} FlatMapAgrees<R, S, T>(s: seq<S>, f: S -> seq<T>, r: seq<R>, g: R -> seq<T>)
    requires |r| == |s| && forall i :: 0 <= i < |s| ==> f(s[i]) == g(r[i])
    ensures FlatMap(s, f) == FlatMap(r, g)
  {
    if s != [] {
      FlatMapAgrees(s[..|s| - 1], f, r[..|s| - 1], g);
    }
  }

  lemma {:induction false} FlatMapOfSingles<S, T>(s: seq<S>, f: S -> seq<T>, r: seq<T>)
    requires |r| == |s| && forall i :: 0 <= i < |s| ==> f(s[i]) == [r[i]]
    ensures FlatMap(s, f) == r
  {
    if s != [] {
      var n := |s| - 1;
      FlatMapOfSingles(s[..n], f, r[..n]);
      assert r == r[..n] + [r[n]];
    }
  }

  /** How often `x` occurs in `s`. */
  ghost function Occurrences<T>(s: seq<T>, x: T): nat {
    multiset(s)[x]
  }

  lemma {:induction false} SelectKeepsOccurrences<T>(s: seq<T>, p: T -> bool, x: T)
    requires p(x)
    ensures Occurrences(Select(s, p), x) == Occurrences(s, x)
  {
    if s != [] {
      SelectKeepsOccurrences(s[..|s| - 1], p, x);
      assert s == s[..|s| - 1] + [s[|s| - 1]];
    }
  }

  /** The sum of a non-negative weight over the values of a finite map. */
  ghost function MapTotal<K, V>(m: map<K, V>, w: V -> nat): nat {
    if m == map[] then 0
    else
      var k :| k in m;
      w(m[k]) + MapTotal(m - {k}, w)
  }

  lemma {:induction false} MapTotalRemove<K, V>(m: map<K, V>, k: K, w: V -> nat)
    requires k in m
    ensures MapTotal(m, w) == w(m[k]) + MapTotal(m - {k}, w)
    decreases |m|
  {
    var j :| j in m && MapTotal(m, w) == w(m[j]) + MapTotal(m - {j}, w);
    if j != k {
      MapTotalRemove(m - {j}, k, w);
      MapTotalRemove(m - {k}, j, w);
      assert m - {j} - {k} == m - {k} - {j};
    }
  }

  lemma MapTotalUpdate<K, V>(m: map<K, V>, k: K, v: V, w: V -> nat)
    ensures MapTotal(m[k := v], w) == w(v) + MapTotal(m, w) - (if k in m then w(m[k]) else 0)
  {
    MapTotalRemove(m[k := v], k, w);
    assert m[k := v] - {k} == m - {k};
    if k in m {
      MapTotalRemove(m, k, w);
    } else {
      assert m - {k} == m;
    }
  }

  /** Two maps whose keys with positive weight agree have the same total. */
  lemma {:induction false} MapTotalAgrees<K, V>(m: map<K, V>, n: map<K, V>, w: V -> nat)
    requires forall k :: k in n ==> k in m && w(n[k]) == w(m[k])
    requires forall k :: k in m && k !in n ==> w(m[k]) == 0
    ensures MapTotal(m, w) == MapTotal(n, w)
    decreases |m|
  {
    if m == map[] {
      assert n == map[];
    } else {
      var k :| k in m;
      MapTotalRemove(m, k, w);
      if k in n {
        MapTotalRemove(n, k, w);
        MapTotalAgrees(m - {k}, n - {k}, w);
      } else {
        MapTotalAgrees(m - {k}, n, w);
      }
    }
  }
}
