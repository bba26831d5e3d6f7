/** Where the report is exact and where it is not: percentiles of repeated keys, and joined keys. */
module MetricLimits {
  import opened Metric
  import Percentile

  // ----- percentiles -----

  /** Every duration of a key, which is what a percentile should be taken of. */
  function AllDurations(g: seq<Metric>): seq<real> {
    seq(|g|, i requires 0 <= i < |g| => g[i].durationMs as real)
  }

  /** `v` has the nearest-rank property for rank k: at least k samples up to it, fewer than k below it. */
  predicate HasRank(data: seq<real>, v: real, k: int) {
    Percentile.AtMost(data, v) >= k && Percentile.Below(data, v) <= k - 1
  }

  /** The first duration of a key is its percentile for p exactly when its place among all durations has that rank. */
  lemma FirstIsPercentileIff(g: seq<Metric>, p: real)
    requires g != [] && 0.0 <= p <= 1.0
    ensures Percentile.Value(AllDurations(g), p) == FirstValue(g)
       <==> HasRank(AllDurations(g), FirstValue(g), Percentile.Rank(|g|, p))
  {
    var data, k := AllDurations(g), Percentile.Rank(|g|, p);
    Percentile.NearestRank(data, p);
    if HasRank(data, FirstValue(g), k) {
      Percentile.NearestRankUnique(data, k, Percentile.Value(data, p), FirstValue(g));
    }
  }

  /** A reported percentile of a group is the true one. */
  predicate Exact(values: map<string, real>, k: string, g: seq<Metric>, p: real)
    requires g != [] && 0.0 <= p <= 1.0
  {
    k in values && values[k] == Percentile.Value(AllDurations(g), p)
  }

  /** The first duration of a group has the rank of p among all its durations. */
  predicate FirstHasRank(g: seq<Metric>, p: real) {
    HasRank(AllDurations(g), FirstValue(g), Percentile.Rank(|g|, p))
  }

  /**
   What the report says of a key is right exactly when the first duration happens to have the rank asked for:
   for each of the four percentile maps, and for every key that occurs.
   */
  lemma ReportedExactIff(r: Insights, ms: seq<Metric>, k: string)
    requires Reports(r, ms)
    ensures var g := Group(ms, Consumers, Durations, k);
      if g == [] then k !in r.p99Consumed && k !in r.p75Consumed
      else
        && (Exact(r.p99Consumed, k, g, 0.99) <==> FirstHasRank(g, 0.99))
        && (Exact(r.p75Consumed, k, g, 0.75) <==> FirstHasRank(g, 0.75))
    ensures var g := Group(ms, Publishers, Durations, k);
      if g == [] then k !in r.p99Published && k !in r.p75Published
      else
        && (Exact(r.p99Published, k, g, 0.99) <==> FirstHasRank(g, 0.99))
        && (Exact(r.p75Published, k, g, 0.75) <==> FirstHasRank(g, 0.75))
  {
    GroupExactIff(r.p99Consumed, ms, Consumers, k, 0.99);
    GroupExactIff(r.p75Consumed, ms, Consumers, k, 0.75);
    GroupExactIff(r.p99Published, ms, Publishers, k, 0.99);
    GroupExactIff(r.p75Published, ms, Publishers, k, 0.75);
  }

  lemma GroupExactIff(values: map<string, real>, ms: seq<Metric>, side: Side, k: string, p: real)
    requires Indexes(values, ms, side, Durations, FirstValue) && 0.0 <= p <= 1.0
    ensures var g := Group(ms, side, Durations, k);
      if g == [] then k !in values else Exact(values, k, g, p) <==> FirstHasRank(g, p)
  {
    var g := Group(ms, side, Durations, k);
    if g != [] {
      FirstIsPercentileIff(g, p);
    }
  }

  lemma {:induction false} BelowNone(s: seq<real>, v: real)
    requires Percentile.Below(s, v) == 0
    ensures forall i :: 0 <= i < |s| ==> v <= s[i]
  {
    if s != [] {
      BelowNone(s[1..], v);
    }
  }

  lemma {:induction false} AtMostLength(s: seq<real>, v: real)
    ensures Percentile.AtMost(s, v) <= |s|
    ensures Percentile.AtMost(s, v) == |s| ==> forall i :: 0 <= i < |s| ==> s[i] <= v
  {
    if s != [] {
      AtMostLength(s[1..], v);
    }
  }

  /** The smallest and largest samples are the values for p = 0 and p = 1. */
  lemma Extremes(data: seq<real>)
    requires data != []
    ensures forall i :: 0 <= i < |data| ==> Percentile.Value(data, 0.0) <= data[i] <= Percentile.Value(data, 1.0)
  {
    Percentile.NearestRank(data, 0.0);
    Percentile.NearestRank(data, 1.0);
    Percentile.RankBounds(|data|, 0.0, 1.0);
    BelowNone(data, Percentile.Value(data, 0.0));
    assert Percentile.Rank(|data|, 1.0) == |data|;
    AtMostLength(data, Percentile.Value(data, 1.0));
  }

  /** The report's one value per key would do for every percentile of the key. */
  ghost predicate ExactForAll(g: seq<Metric>)
    requires g != []
  {
    forall p :: 0.0 <= p <= 1.0 ==> Percentile.Value(AllDurations(g), p) == FirstValue(g)
  }

  predicate Constant(g: seq<Metric>) {
    forall i :: 0 <= i < |g| ==> g[i].durationMs == g[0].durationMs
  }

  lemma ConstantIsExact(g: seq<Metric>)
    requires g != [] && Constant(g)
    ensures ExactForAll(g)
  {
    var data := AllDurations(g);
    forall p | 0.0 <= p <= 1.0
      ensures Percentile.Value(data, p) == FirstValue(g)
    {
      Percentile.NearestRank(data, p);
      var i :| 0 <= i < |data| && data[i] == Percentile.Value(data, p);
      assert g[i].durationMs == g[0].durationMs;
    }
  }

  lemma ExactIsConstant(g: seq<Metric>)
    requires g != [] && ExactForAll(g)
    ensures Constant(g)
  {
    var data := AllDurations(g);
    Extremes(data);
    forall i | 0 <= i < |g|
      ensures g[i].durationMs == g[0].durationMs
    {
      assert Percentile.Value(data, 0.0) <= data[i] <= Percentile.Value(data, 1.0);
      assert data[i] == g[i].durationMs as real;
    }
  }

  /** The first duration is the percentile for every p at once exactly when all durations of the key are equal. */
  lemma PercentilesExactIffConstant(g: seq<Metric>)
    requires g != []
    ensures ExactForAll(g) <==> Constant(g)
  {
    if Constant(g) {
      ConstantIsExact(g);
    }
    if ExactForAll(g) {
      ExactIsConstant(g);
    }
  }

  /** A delivery to one consumer of one topic that took so many milliseconds. */
  function Delivery(durationMs: int): Metric {
    Metric("t", "c", 0, 0, durationMs, true)
  }

  lemma TwoDeliveries(x: int, y: int)
    ensures Group([Delivery(x), Delivery(y)], Consumers, Durations, "t.c") == [Delivery(x), Delivery(y)]
  {
    var ms := [Delivery(x), Delivery(y)];
    assert Joined("t", "c", '.') == "t.c";
    assert ms[..1] == [Delivery(x)] && ms[..1][..0] == [];
    assert Group(ms[..1], Consumers, Durations, "t.c") == [Delivery(x)];
  }

  /**
   Two deliveries of 8 ms and 12 ms: the 99th percentile is 12 and the
   report says 8; in the other order it says 12.
   */
  lemma PercentileCounterexample(r: Insights, s: Insights)
    requires Reports(r, [Delivery(8), Delivery(12)]) && Reports(s, [Delivery(12), Delivery(8)])
    ensures "t.c" in r.p99Consumed && r.p99Consumed["t.c"] == 8.0 && Percentile.Value([8.0, 12.0], 0.99) == 12.0
    ensures "t.c" in s.p99Consumed && s.p99Consumed["t.c"] == 12.0 == Percentile.Value([12.0, 8.0], 0.99)
  {
    TwoDeliveries(8, 12);
    TwoDeliveries(12, 8);
    TwoSamples();
  }

  lemma TwoSamples()
    ensures Percentile.Value([8.0, 12.0], 0.99) == 12.0 == Percentile.Value([12.0, 8.0], 0.99)
  {
    assert [8.0, 12.0][1..] == [12.0] && [12.0, 8.0][1..] == [8.0] && [12.0][1..] == [] && [8.0][1..] == [];
    assert Percentile.Sort([8.0, 12.0]) == [8.0, 12.0];
    assert Percentile.Sort([12.0, 8.0]) == [8.0, 12.0];
    assert Percentile.Rank(2, 0.99) == 2;
  }

  // ----- joined keys -----

  /**
   A joined key belongs to one topic and consumer exactly when the separator occurs neither in the topic
   nor in the consumer before its last character; otherwise two different pairs share an entry.
   */
  lemma KeyIdentifiesIff(topic: string, consumer: string, separator: char)
    requires consumer != ""
    ensures (forall t: string, c: string ::
               c != "" && Joined(t, c, separator) == Joined(topic, consumer, separator) ==> t == topic && c == consumer)
       <==> separator !in topic && separator !in consumer[..|consumer| - 1]
  {
    if separator in topic {
      var i :| 0 <= i < |topic| && topic[i] == separator;
      var t, c := topic[..i], topic[i + 1..] + [separator] + consumer;
      assert topic == topic[..i] + [separator] + topic[i + 1..];
      assert Joined(t, c, separator) == Joined(topic, consumer, separator);
      assert |t| < |topic|;
    } else if separator in consumer[..|consumer| - 1] {
      var i :| 0 <= i < |consumer| - 1 && consumer[i] == separator;
      var t, c := topic + [separator] + consumer[..i], consumer[i + 1..];
      assert consumer == consumer[..i] + [separator] + consumer[i + 1..];
      assert Joined(t, c, separator) == Joined(topic, consumer, separator);
      assert |t| > |topic|;
    } else {
      forall t: string, c: string | c != "" && Joined(t, c, separator) == Joined(topic, consumer, separator)
        ensures t == topic && c == consumer
      {
        SameSplit(t, c, topic, consumer, separator);
      }
    }
  }

  /** A separator further left than the chosen one would lie in the topic or inside the consumer. */
  lemma NoEarlierSplit(t: string, c: string, topic: string, consumer: string, separator: char)
    requires Joined(t, c, separator) == Joined(topic, consumer, separator)
    requires |t| < |topic|
    ensures separator in topic
  {
    assert Joined(t, c, separator)[|t|] == separator;
    assert Joined(topic, consumer, separator)[|t|] == topic[|t|];
  }

  lemma NoLaterSplit(t: string, c: string, topic: string, consumer: string, separator: char)
    requires Joined(t, c, separator) == Joined(topic, consumer, separator)
    requires c != "" && |t| > |topic|
    ensures |consumer| > 0 && separator in consumer[..|consumer| - 1]
  {
    var j := |t| - |topic| - 1;
    assert |Joined(t, c, separator)| == |Joined(topic, consumer, separator)|;
    assert Joined(t, c, separator)[|t|] == separator;
    assert Joined(topic, consumer, separator)[|t|] == consumer[j] == consumer[..|consumer| - 1][j];
  }

  lemma SameSplit(t: string, c: string, topic: string, consumer: string, separator: char)
    requires c != "" && consumer != "" && Joined(t, c, separator) == Joined(topic, consumer, separator)
    requires separator !in topic && separator !in consumer[..|consumer| - 1]
    ensures t == topic && c == consumer
  {
    if |t| < |topic| {
      NoEarlierSplit(t, c, topic, consumer, separator);
    } else if |t| > |topic| {
      NoLaterSplit(t, c, topic, consumer, separator);
    } else {
      var key := Joined(topic, consumer, separator);
      assert t == Joined(t, c, separator)[..|t|] && topic == key[..|topic|];
      assert c == Joined(t, c, separator)[|t| + 1..] && consumer == key[|topic| + 1..];
    }
  }
}
