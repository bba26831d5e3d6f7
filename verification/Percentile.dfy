/** `percentile` of `internal/domain/metric.go`, over exact reals. */
module Percentile {
  import opened Prelude

  predicate Sorted(s: seq<real>) {
    forall i, j :: 0 <= i < j < |s| ==> s[i] <= s[j]
  }

  function Insert(x: real, s: seq<real>): seq<real> {
    if s == [] || x <= s[0] then [x] + s else [s[0]] + Insert(x, s[1..])
  }

  function Sort(s: seq<real>): seq<real> {
    if s == [] then [] else Insert(s[0], Sort(s[1..]))
  }

  lemma {:induction false} InsertMultiset(x: real, s: seq<real>)
    ensures multiset(Insert(x, s)) == multiset(s) + multiset{x}
  {
    if s != [] && !(x <= s[0]) {
      InsertMultiset(x, s[1..]);
      assert s == [s[0]] + s[1..];
    }
  }

  lemma {:induction false} InsertSorted(x: real, s: seq<real>)
    requires Sorted(s)
    ensures Sorted(Insert(x, s))
  {
    if s != [] && !(x <= s[0]) {
      var t := Insert(x, s[1..]);
      InsertSorted(x, s[1..]);
      InsertMultiset(x, s[1..]);
      forall i | 0 <= i < |t|
        ensures s[0] <= t[i]
      {
        assert t[i] in multiset(t);
        assert t[i] == x || t[i] in s[1..];
      }
    }
  }

  lemma {:induction false} SortFacts(s: seq<real>)
    ensures Sorted(Sort(s)) && multiset(Sort(s)) == multiset(s) && |Sort(s)| == |s|
  {
    if s != [] {
      SortFacts(s[1..]);
      InsertSorted(s[0], Sort(s[1..]));
      InsertMultiset(s[0], Sort(s[1..]));
      assert s == [s[0]] + s[1..];
    }
    assert |multiset(Sort(s))| == |Sort(s)| && |multiset(s)| == |s|;
  }

  /** A multiset has one sorted arrangement. */
  lemma {:induction false} SortedUnique(a: seq<real>, b: seq<real>)
    requires Sorted(a) && Sorted(b) && multiset(a) == multiset(b)
    ensures a == b
  {
    assert |a| == |multiset(a)| == |multiset(b)| == |b|;
    if a != [] {
      LeastHead(a, b);
      LeastHead(b, a);
      TailMultiset(a);
      TailMultiset(b);
      SortedUnique(a[1..], b[1..]);
    }
  }

  lemma LeastHead(a: seq<real>, b: seq<real>)
    requires a != [] && b != [] && Sorted(a) && multiset(a) == multiset(b)
    ensures a[0] <= b[0]
  {
    assert b[0] in multiset(a);
    var i :| 0 <= i < |a| && a[i] == b[0];
  }

  lemma TailMultiset(a: seq<real>)
    requires a != []
    ensures multiset(a[1..]) == multiset(a) - multiset{a[0]}
  {
    assert a == [a[0]] + a[1..];
  }

  /** `math.Ceil`. */
  function Ceil(x: real): int {
    -((-x).Floor)
  }

  function AtLeastOne(k: int): int {
    if k < 1 then 1 else k
  }

  /** The nearest rank: at least 1. */
  function Rank(n: nat, p: real): int {
    AtLeastOne(Ceil(p * n as real))
  }

  lemma ProductBounds(n: nat, p: real, q: real)
    requires 0.0 <= p <= q <= 1.0
    ensures 0.0 <= p * n as real <= q * n as real <= n as real
  {
  }

  lemma CeilBounds(x: real, y: real, n: nat)
    requires x <= y <= n as real && n > 0
    ensures 1 <= AtLeastOne(Ceil(x)) <= AtLeastOne(Ceil(y)) <= n
  {
  }

  lemma RankBounds(n: nat, p: real, q: real)
    requires 0.0 <= p <= q <= 1.0 && n > 0
    ensures 1 <= Rank(n, p) <= Rank(n, q) <= n
  {
    ProductBounds(n, p, q);
    CeilBounds(p * n as real, q * n as real, n);
  }

  /** The rank is p times n rounded up, and 1 when that is 0. */
  lemma RankIsCeiling(n: nat, p: real)
    requires 0.0 <= p <= 1.0
    ensures p * n as real <= Rank(n, p) as real
    ensures if p * n as real <= 0.0 then Rank(n, p) == 1 else Rank(n, p) as real - 1.0 < p * n as real
  {
    var x := p * n as real;
    assert (-x).Floor as real <= -x < (-x).Floor as real + 1.0;
  }

  function Value(data: seq<real>, p: real): real
    requires data != [] && 0.0 <= p <= 1.0
  {
    SortFacts(data);
    RankBounds(|data|, p, p);
    Sort(data)[Rank(|data|, p) - 1]
  }

  /** Sorting a buffer in place; the library's sort is used only through this contract. */
  method SortInPlace(buffer: array<real>)
    modifies buffer
    ensures buffer[..] == Sort(old(buffer[..]))
  {
    var sorted := Sort(buffer[..]);
    SortFacts(buffer[..]);
    forall i | 0 <= i < buffer.Length {
      buffer[i] := sorted[i];
    }
  }

  /** The index arithmetic of `percentile`, with its two clamps. */
  method NearestIndex(length: nat, p: real) returns (idx: int)
    requires length > 0 && 0.0 <= p <= 1.0
    ensures idx == Rank(length, p) - 1
  {
    RankBounds(length, p, p);
    var n := length as real;
    idx := Ceil(p * n) - 1;
    if idx < 0 {
      idx := 0;
    }
    if idx >= length {
      idx := length - 1;
    }
  }

  /** `percentile`. */
  method Percentile(data: seq<real>, p: real) returns (r: Result<real>)
    ensures data == [] || p < 0.0 || p > 1.0 ==> r.Err?
    ensures data != [] && 0.0 <= p <= 1.0 ==> r == Ok(Value(data, p))
  {
    if |data| == 0 {
      return Err("empty array");
    }
    if p < 0.0 || p > 1.0 {
      return Err("p must be between 0 and 1");
    }

    var sorted := new real[|data|](i requires 0 <= i < |data| => data[i]);
    assert sorted[..] == data;
    SortInPlace(sorted);
    SortFacts(data);
    RankBounds(|data|, p, p);
    var idx := NearestIndex(sorted.Length, p);
    return Ok(sorted[idx]);
  }

  // ----- the nearest-rank guarantee -----

  function AtMost(s: seq<real>, v: real): nat {
    if s == [] then 0 else (if s[0] <= v then 1 else 0) + AtMost(s[1..], v)
  }

  function Below(s: seq<real>, v: real): nat {
    if s == [] then 0 else (if s[0] < v then 1 else 0) + Below(s[1..], v)
  }

  lemma {:induction false} InsertCounts(x: real, s: seq<real>, v: real)
    ensures AtMost(Insert(x, s), v) == AtMost(s, v) + (if x <= v then 1 else 0)
    ensures Below(Insert(x, s), v) == Below(s, v) + if x < v then 1 else 0
  {
    if s == [] || x <= s[0] {
      assert ([x] + s)[1..] == s;
    } else {
      InsertCounts(x, s[1..], v);
      assert Insert(x, s)[1..] == Insert(x, s[1..]);
    }
  }

  lemma {:induction false} SortCounts(s: seq<real>, v: real)
    ensures AtMost(Sort(s), v) == AtMost(s, v) && Below(Sort(s), v) == Below(s, v)
  {
    if s != [] {
      SortCounts(s[1..], v);
      InsertCounts(s[0], Sort(s[1..]), v);
    }
  }

  lemma {:induction false} SortedCounts(s: seq<real>, i: nat)
    requires Sorted(s) && i < |s|
    ensures AtMost(s, s[i]) >= i + 1 && Below(s, s[i]) <= i
  {
    if i == 0 {
      NoneBelow(s[1..], s[0]);
    } else {
      SortedCounts(s[1..], i - 1);
    }
  }

  lemma {:induction false} NoneBelow(s: seq<real>, v: real)
    requires forall i :: 0 <= i < |s| ==> v <= s[i]
    ensures Below(s, v) == 0
  {
    if s != [] {
      NoneBelow(s[1..], v);
    }
  }

  /** The value is a sample with at least `Rank` samples up to it and fewer than `Rank` samples below it. */
  lemma NearestRank(data: seq<real>, p: real)
    requires data != [] && 0.0 <= p <= 1.0
    ensures var v, k := Value(data, p), Rank(|data|, p);
      v in data && AtMost(data, v) >= k && Below(data, v) <= k - 1
  {
    var k := Rank(|data|, p);
    SortFacts(data);
    RankBounds(|data|, p, p);
    var v := Sort(data)[k - 1];
    SortedCounts(Sort(data), k - 1);
    SortCounts(data, v);
    assert v in multiset(Sort(data));
  }

  /** The guarantee pins the value down: no other number has it. */
  lemma NearestRankUnique(data: seq<real>, k: int, v: real, w: real)
    requires AtMost(data, v) >= k && Below(data, v) <= k - 1
    requires AtMost(data, w) >= k && Below(data, w) <= k - 1
    ensures v == w
  {
    if v < w {
      AtMostBelow(data, v, w);
    } else if w < v {
      AtMostBelow(data, w, v);
    }
  }

  lemma {:induction false} AtMostBelow(s: seq<real>, v: real, w: real)
    requires v < w
    ensures AtMost(s, v) <= Below(s, w)
  {
    if s != [] {
      AtMostBelow(s[1..], v, w);
    }
  }

  /** The order of the samples does not matter. */
  lemma OrderIrrelevant(a: seq<real>, b: seq<real>, p: real)
    requires a != [] && multiset(a) == multiset(b) && 0.0 <= p <= 1.0
    ensures b != [] && Value(a, p) == Value(b, p)
  {
    assert |a| == |multiset(a)| == |multiset(b)| == |b|;
    SortFacts(a);
    SortFacts(b);
    SortedUnique(Sort(a), Sort(b));
  }

  /** A larger p never gives a smaller value. */
  lemma Monotone(data: seq<real>, p: real, q: real)
    requires data != [] && 0.0 <= p <= q <= 1.0
    ensures Value(data, p) <= Value(data, q)
  {
    SortFacts(data);
    RankBounds(|data|, p, q);
  }
}
