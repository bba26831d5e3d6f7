/** The report in plain terms: which metrics of the input each of its numbers speaks of. */
module MetricReport {
  import opened Prelude
  import opened Metric
  import opened Rpm
  import Percentile

  // ----- positions of the input that a condition picks -----

  predicate Increasing(at: seq<nat>) {
    forall n, m :: 0 <= n < m < |at| ==> at[n] < at[m]
  }

  /** `at` lists the positions of the metrics with the property, in order, each once. */
  predicate Picks(at: seq<nat>, ms: seq<Metric>, p: Metric -> bool) {
    && Increasing(at)
    && (forall n :: 0 <= n < |at| ==> at[n] < |ms| && p(ms[at[n]]))
    && (forall i :: 0 <= i < |ms| && p(ms[i]) ==> i in at)
  }

  function Picked(at: seq<nat>, ms: seq<Metric>): seq<Metric>
    requires forall n :: 0 <= n < |at| ==> at[n] < |ms|
  {
    seq(|at|, n requires 0 <= n < |at| => ms[at[n]])
  }

  lemma PickOneMore(at: seq<nat>, init: seq<Metric>, last: Metric, p: Metric -> bool)
    requires Picks(at, init, p)
    ensures Picks(if p(last) then at + [|init|] else at, init + [last], p)
  {
    var ms := init + [last];
    var longer := if p(last) then at + [|init|] else at;
    forall i | 0 <= i < |ms| && p(ms[i])
      ensures i in longer
    {
      if i < |init| {
        assert init[i] == ms[i] && i in at;
      } else {
        assert longer[|at|] == i;
      }
    }
  }

  lemma PickedSnoc(at: seq<nat>, init: seq<Metric>, last: Metric)
    requires forall n :: 0 <= n < |at| ==> at[n] < |init|
    ensures Picked(at, init + [last]) == Picked(at, init)
    ensures Picked(at + [|init|], init + [last]) == Picked(at, init) + [last]
  {
  }

  /** A key's group is the metrics at the positions of that key. */
  lemma {:induction false} PickGroup(ms: seq<Metric>, side: Side, purpose: Purpose, k: string, p: Metric -> bool)
    returns (at: seq<nat>)
    requires forall m :: p(m) <==> KeyOf(side, purpose, m) == Some(k)
    ensures Picks(at, ms, p) && Group(ms, side, purpose, k) == Picked(at, ms)
  {
    if ms == [] {
      at := [];
    } else {
      var init, last := ms[..|ms| - 1], ms[|ms| - 1];
      var before := PickGroup(init, side, purpose, k, p);
      assert ms == init + [last];
      PickOneMore(before, init, last, p);
      at := if p(last) then before + [|init|] else before;
      PickedSnoc(before, init, last);
    }
  }

  lemma {:induction false} PickSide(ms: seq<Metric>, side: Side, acks: set<bool>, p: Metric -> bool)
    returns (at: seq<nat>)
    requires forall m :: p(m) <==> OnSide(side, m) && m.ack in acks
    ensures Picks(at, ms, p) && CountOn(ms, side, acks) == |at|
  {
    if ms == [] {
      at := [];
    } else {
      var init, last := ms[..|ms| - 1], ms[|ms| - 1];
      var before := PickSide(init, side, acks, p);
      assert ms == init + [last];
      PickOneMore(before, init, last, p);
      at := if p(last) then before + [|init|] else before;
    }
  }

  // ----- totals -----

  /** Deliveries are the metrics with a consumer name; their successes those that were acknowledged. */
  lemma ConsumedExactly(r: Insights, ms: seq<Metric>) returns (all: seq<nat>, good: seq<nat>, bad: seq<nat>)
    requires Reports(r, ms)
    ensures Picks(all, ms, (m: Metric) => m.consumerName != "") && r.consumed.total == |all|
    ensures Picks(good, ms, (m: Metric) => m.consumerName != "" && m.ack) && r.consumed.success == |good|
    ensures Picks(bad, ms, (m: Metric) => m.consumerName != "" && !m.ack) && r.consumed.error == |bad|
  {
    all := PickSide(ms, Consumers, {true, false}, (m: Metric) => m.consumerName != "");
    good := PickSide(ms, Consumers, {true}, (m: Metric) => m.consumerName != "" && m.ack);
    bad := PickSide(ms, Consumers, {false}, (m: Metric) => m.consumerName != "" && !m.ack);
  }

  lemma PublishedExactly(r: Insights, ms: seq<Metric>) returns (all: seq<nat>, good: seq<nat>, bad: seq<nat>)
    requires Reports(r, ms)
    ensures Picks(all, ms, (m: Metric) => m.consumerName == "") && r.published.total == |all|
    ensures Picks(good, ms, (m: Metric) => m.consumerName == "" && m.ack) && r.published.success == |good|
    ensures Picks(bad, ms, (m: Metric) => m.consumerName == "" && !m.ack) && r.published.error == |bad|
  {
    all := PickSide(ms, Publishers, {true, false}, (m: Metric) => m.consumerName == "");
    good := PickSide(ms, Publishers, {true}, (m: Metric) => m.consumerName == "" && m.ack);
    bad := PickSide(ms, Publishers, {false}, (m: Metric) => m.consumerName == "" && !m.ack);
  }

  // ----- segmentation -----

  /** A consumer's entry is the number of its deliveries, over all topics; it is there when there are any. */
  lemma ConsumerSegment(r: Insights, ms: seq<Metric>, consumer: string) returns (at: seq<nat>)
    requires Reports(r, ms)
    ensures Picks(at, ms, (m: Metric) => m.consumerName != "" && m.consumerName == consumer)
    ensures if at == [] then consumer !in r.segmentationConsumed
            else consumer in r.segmentationConsumed && r.segmentationConsumed[consumer] == |at|
  {
    at := PickGroup(ms, Consumers, Segmentation, consumer,
                    (m: Metric) => m.consumerName != "" && m.consumerName == consumer);
  }

  lemma TopicSegment(r: Insights, ms: seq<Metric>, topic: string) returns (at: seq<nat>)
    requires Reports(r, ms)
    ensures Picks(at, ms, (m: Metric) => m.consumerName == "" && m.topicName == topic)
    ensures if at == [] then topic !in r.segmentationPublished
            else topic in r.segmentationPublished && r.segmentationPublished[topic] == |at|
  {
    at := PickGroup(ms, Publishers, Segmentation, topic, (m: Metric) => m.consumerName == "" && m.topicName == topic);
  }

  // ----- series -----

  /** The minute of a time is the multiple of sixty seconds, in nanoseconds, at or below it. */
  lemma MinuteOf(t: int)
    ensures DateInMinute(t) <= t < DateInMinute(t) + 60_000_000_000
    ensures DateInMinute(t) % 60_000_000_000 == 0
  {
  }

  /** Entry n is the minute in which metric n ended. */
  predicate InMinutes(minutes: seq<int>, g: seq<Metric>) {
    && |minutes| == |g|
    && forall n :: 0 <= n < |g| ==>
         && minutes[n] <= g[n].timeEnded < minutes[n] + 60_000_000_000
         && minutes[n] % 60_000_000_000 == 0
  }

  predicate Fits(series: map<string, Series>, k: string, g: seq<Metric>) {
    k in series && RunLength(series[k]) && InMinutes(Expand(series[k]), g)
  }

  lemma MinutesFit(g: seq<Metric>)
    ensures InMinutes(Minutes(g), g)
  {
    forall n | 0 <= n < |g|
      ensures Minutes(g)[n] <= g[n].timeEnded < Minutes(g)[n] + 60_000_000_000 && Minutes(g)[n] % 60_000_000_000 == 0
    {
      MinuteOf(g[n].timeEnded);
    }
  }

  lemma SeriesFits(g: seq<Metric>)
    ensures RunLength(SeriesOf(g)) && InMinutes(Expand(SeriesOf(g)), g)
  {
    MinutesFit(g);
    EncodeExpands(Minutes(g));
  }

  /** The series of a key are the minutes of its deliveries, in input order, run-length encoded. */
  lemma ConsumerSeries(r: Insights, ms: seq<Metric>, k: string) returns (at: seq<nat>)
    requires Reports(r, ms)
    ensures Picks(at, ms, (m: Metric) => m.consumerName != "" && m.topicName + ":" + m.consumerName == k)
    ensures if at == [] then k !in r.rpmConsumer else Fits(r.rpmConsumer, k, Picked(at, ms))
  {
    at := PickGroup(ms, Consumers, SeriesMap, k,
                    (m: Metric) => m.consumerName != "" && m.topicName + ":" + m.consumerName == k);
    SeriesFits(Picked(at, ms));
  }

  lemma PublisherSeries(r: Insights, ms: seq<Metric>, topic: string) returns (at: seq<nat>)
    requires Reports(r, ms)
    ensures Picks(at, ms, (m: Metric) => m.consumerName == "" && m.topicName == topic)
    ensures if at == [] then topic !in r.rpmPublisher
            else Fits(r.rpmPublisher, topic, Picked(at, ms))
  {
    at := PickGroup(ms, Publishers, SeriesMap, topic, (m: Metric) => m.consumerName == "" && m.topicName == topic);
    SeriesFits(Picked(at, ms));
  }

  // ----- percentiles -----

  /** Both percentiles of a key are the duration of the first metric of that key. */
  lemma ConsumerPercentiles(r: Insights, ms: seq<Metric>, k: string) returns (at: seq<nat>)
    requires Reports(r, ms)
    ensures Picks(at, ms, (m: Metric) => m.consumerName != "" && m.topicName + "." + m.consumerName == k)
    ensures if at == [] then k !in r.p99Consumed && k !in r.p75Consumed
            else
              && k in r.p99Consumed && r.p99Consumed[k] == ms[at[0]].durationMs as real
              && k in r.p75Consumed && r.p75Consumed[k] == ms[at[0]].durationMs as real
  {
    at := PickGroup(ms, Consumers, Durations, k,
                    (m: Metric) => m.consumerName != "" && m.topicName + "." + m.consumerName == k);
  }

  lemma PublisherPercentiles(r: Insights, ms: seq<Metric>, topic: string) returns (at: seq<nat>)
    requires Reports(r, ms)
    ensures Picks(at, ms, (m: Metric) => m.consumerName == "" && m.topicName == topic)
    ensures if at == [] then topic !in r.p99Published && topic !in r.p75Published
            else
              && topic in r.p99Published && r.p99Published[topic] == ms[at[0]].durationMs as real
              && topic in r.p75Published && r.p75Published[topic] == ms[at[0]].durationMs as real
  {
    at := PickGroup(ms, Publishers, Durations, topic, (m: Metric) => m.consumerName == "" && m.topicName == topic);
  }
}
