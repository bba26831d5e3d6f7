/** Aggregation of recorded metrics (`internal/domain/metric.go`). */
module Metric {
  import opened Prelude
  import opened Rpm
  import Percentile

  /** Times are wall-clock nanoseconds; `durationMs` is a count of milliseconds. */
  datatype Metric = Metric(topicName: string, consumerName: string, timeStarted: int, timeEnded: int,
                           durationMs: int, ack: bool)

  const MINUTE := 60_000_000_000

  /** The wall-clock minute a time falls in. */
  function DateInMinute(t: int): int {
    t - t % MINUTE
  }

  // ----- which entries of which map a metric belongs to -----

  datatype Side = Consumers | Publishers

  /** The maps of the report: per consumer or topic, per series, and per duration list. */
  datatype Purpose = Segmentation | SeriesMap | Durations

  /** A topic and a consumer in one key. */
  function Joined(topic: string, consumer: string, separator: char): string {
    topic + [separator] + consumer
  }

  /** The entry of a map that a metric belongs to, if it is on that side at all. */
  function KeyOf(side: Side, purpose: Purpose, m: Metric): Option<string> {
    match side
    case Consumers =>
      if m.consumerName == "" then None
      else Some(match purpose
                case Segmentation => m.consumerName
                case SeriesMap => Joined(m.topicName, m.consumerName, ':')
                case Durations => Joined(m.topicName, m.consumerName, '.'))
    case Publishers => if m.consumerName == "" then Some(m.topicName) else None
  }

  function OnSide(side: Side, m: Metric): bool {
    side.Consumers? <==> m.consumerName != ""
  }

  /** The metrics of one key, in input order. */
  function Group(ms: seq<Metric>, side: Side, purpose: Purpose, k: string): seq<Metric> {
    if ms == [] then []
    else
      var init, last := ms[..|ms| - 1], ms[|ms| - 1];
      Group(init, side, purpose, k) + if KeyOf(side, purpose, last) == Some(k) then [last] else []
  }

  /** `entries` has exactly the keys that occur, and holds `f` of each key's metrics. */
  ghost predicate Indexes<T(!new)>(entries: map<string, T>, ms: seq<Metric>, side: Side, purpose: Purpose,
                                   f: seq<Metric> -> T) {
    forall k :: (k in entries <==> Group(ms, side, purpose, k) != [])
        && (k in entries ==> entries[k] == f(Group(ms, side, purpose, k)))
  }

  function Size(g: seq<Metric>): nat {
    |g|
  }

  function Minutes(g: seq<Metric>): seq<int> {
    seq(|g|, i requires 0 <= i < |g| => DateInMinute(g[i].timeEnded))
  }

  function SeriesOf(g: seq<Metric>): Series {
    Encode(Minutes(g))
  }

  /** The first duration only: the source appends further durations to a slice it does not store back. */
  function FirstDuration(g: seq<Metric>): seq<real> {
    if g == [] then [] else [g[0].durationMs as real]
  }

  function FirstValue(g: seq<Metric>): real {
    if g == [] then 0.0 else g[0].durationMs as real
  }

  /** Number of metrics on a side, all of them or those with the given acknowledgement. */
  function CountOn(ms: seq<Metric>, side: Side, acks: set<bool>): nat {
    if ms == [] then 0
    else CountOn(ms[..|ms| - 1], side, acks) + if OnSide(side, ms[|ms| - 1]) && ms[|ms| - 1].ack in acks then 1 else 0
  }

  datatype Totals = Totals(total: nat, success: nat, error: nat)

  datatype Insights = Insights(
    published: Totals, consumed: Totals,
    segmentationPublished: map<string, nat>, segmentationConsumed: map<string, nat>,
    rpmPublisher: map<string, Series>, rpmConsumer: map<string, Series>,
    p99Published: map<string, real>, p75Published: map<string, real>,
    p99Consumed: map<string, real>, p75Consumed: map<string, real>)

  // ----- one step of the aggregation loop -----

  lemma GroupStep(ms: seq<Metric>, i: nat, side: Side, purpose: Purpose, k: string)
    requires i < |ms|
    ensures Group(ms[..i + 1], side, purpose, k)
         == if KeyOf(side, purpose, ms[i]) == Some(k) then Group(ms[..i], side, purpose, k) + [ms[i]]
             else Group(ms[..i], side, purpose, k)
  {
    assert ms[..i + 1][..i] == ms[..i];
  }

  lemma CountStep(ms: seq<Metric>, i: nat, side: Side, acks: set<bool>)
    requires i < |ms|
    ensures CountOn(ms[..i + 1], side, acks)
        == CountOn(ms[..i], side, acks) + if OnSide(side, ms[i]) && ms[i].ack in acks then 1 else 0
  {
    assert ms[..i + 1][..i] == ms[..i];
  }

  lemma IndexHit<T(!new)>(entries: map<string, T>, ms: seq<Metric>, i: nat, side: Side, purpose: Purpose,
                          f: seq<Metric> -> T, k: string, value: T)
    requires i < |ms| && Indexes(entries, ms[..i], side, purpose, f)
    requires KeyOf(side, purpose, ms[i]) == Some(k) && value == f(Group(ms[..i], side, purpose, k) + [ms[i]])
    ensures Indexes(entries[k := value], ms[..i + 1], side, purpose, f)
  {
    forall j {
      GroupStep(ms, i, side, purpose, j);
    }
  }

  lemma IndexSkip<T(!new)>(entries: map<string, T>, ms: seq<Metric>, i: nat, side: Side, purpose: Purpose,
                           f: seq<Metric> -> T)
    requires i < |ms| && Indexes(entries, ms[..i], side, purpose, f) && KeyOf(side, purpose, ms[i]) == None
    ensures Indexes(entries, ms[..i + 1], side, purpose, f)
  {
    forall j {
      GroupStep(ms, i, side, purpose, j);
    }
  }

  /** A key already present keeps its first duration. */
  lemma IndexFirst(entries: map<string, seq<real>>, ms: seq<Metric>, i: nat, side: Side, purpose: Purpose, k: string)
    requires i < |ms| && Indexes(entries, ms[..i], side, purpose, FirstDuration)
        && KeyOf(side, purpose, ms[i]) == Some(k) && k in entries
    ensures Indexes(entries, ms[..i + 1], side, purpose, FirstDuration)
  {
    forall j {
      GroupStep(ms, i, side, purpose, j);
    }
  }

  lemma SeriesStep(g: seq<Metric>, m: Metric)
    ensures SeriesOf(g + [m]) == Extend(SeriesOf(g), DateInMinute(m.timeEnded))
    ensures g == [] ==> SeriesOf(g) == NO_SERIES
  {
    assert Minutes(g + [m])[..|g|] == Minutes(g);
  }

  function Tallied(t: Totals, ack: bool): Totals {
    if ack then Totals(t.total + 1, t.success + 1, t.error) else Totals(t.total + 1, t.success, t.error + 1)
  }

  function Incremented(t: map<string, nat>, k: string): map<string, nat> {
    t[k := (if k in t then t[k] else 0) + 1]
  }

  function KeptFirst(t: map<string, seq<real>>, k: string, durationMs: int): map<string, seq<real>> {
    if k in t then t else t[k := [durationMs as real]]
  }

  function Extended(t: map<string, Series>, k: string, minute: int): map<string, Series>
    requires k in t ==> Aligned(t[k])
  {
    t[k := Extend(if k in t then t[k] else NO_SERIES, minute)]
  }

  function TotalsOf(ms: seq<Metric>, side: Side): Totals {
    Totals(CountOn(ms, side, {true, false}), CountOn(ms, side, {true}), CountOn(ms, side, {false}))
  }

  lemma TotalsStep(ms: seq<Metric>, i: nat, side: Side)
    requires i < |ms|
    ensures TotalsOf(ms[..i + 1], side)
        == if OnSide(side, ms[i]) then Tallied(TotalsOf(ms[..i], side), ms[i].ack) else TotalsOf(ms[..i], side)
  {
    CountStep(ms, i, side, {true, false});
    CountStep(ms, i, side, {true});
    CountStep(ms, i, side, {false});
  }

  /** The totals and maps of one side are those of the metrics `ms`. */
  ghost predicate HoldsFor(ms: seq<Metric>, side: Side,
                           totals: Totals, segmentation: map<string, nat>, durations: map<string, seq<real>>,
                               series: map<string, Series>)
  {
    && totals == TotalsOf(ms, side)
    && Indexes(segmentation, ms, side, Segmentation, Size)
    && Indexes(series, ms, side, SeriesMap, SeriesOf)
    && Indexes(durations, ms, side, Durations, FirstDuration)
  }

  /** The fields of the report, and the duration lists, that concern one side. */
  class SideReport {
    var totals: Totals
    var segmentation: map<string, nat>
    var durations: map<string, seq<real>>
    const rpm: RpmIndex

    ghost predicate Valid()
      reads this, rpm, rpm.repr
    {
      rpm.Valid()
    }

    /** What the side holds after the metrics `ms`. */
    ghost predicate Reflects(ms: seq<Metric>, side: Side)
      reads this, rpm
    {
      HoldsFor(ms, side, totals, segmentation, durations, rpm.contents)
    }

    constructor ()
      ensures Valid() && fresh(rpm) && fresh(rpm.repr)
      ensures totals == Totals(0, 0, 0) && segmentation == map[] && durations == map[] && rpm.contents == map[]
    {
      totals, segmentation, durations := Totals(0, 0, 0), map[], map[];
      rpm := new RpmIndex();
    }

    /** Totals and segmentation. */
    method CountOne(ack: bool, segmentKey: string)
      modifies this`totals, this`segmentation
      ensures totals == Tallied(old(totals), ack) && segmentation == Incremented(old(segmentation), segmentKey)
    {
      totals := totals.(total := totals.total + 1);
      if ack {
        totals := totals.(success := totals.success + 1);
      } else {
        totals := totals.(error := totals.error + 1);
      }
      segmentation := segmentation[segmentKey :=
          (if segmentKey in segmentation then segmentation[segmentKey] else 0) + 1];
    }

    /** The duration list of a key. */
    method KeepDuration(durationKey: string, durationMs: int)
      modifies this`durations
      ensures durations == KeptFirst(old(durations), durationKey, durationMs)
    {
      if durationKey in durations {
        var df := durations[durationKey];
        df := df + [durationMs as real]; // the longer slice is not stored back
      } else {
        durations := durations[durationKey := [durationMs as real]];
      }
    }

    /** The branch of the loop body for one side. */
    method Record(m: Metric, segmentKey: string, seriesKey: string, durationKey: string)
      requires Valid()
      modifies this, rpm, rpm.repr
      ensures Valid() && fresh(rpm.repr - old(rpm.repr))
      ensures totals == Tallied(old(totals), m.ack)
      ensures segmentation == Incremented(old(segmentation), segmentKey)
      ensures durations == KeptFirst(old(durations), durationKey, m.durationMs)
      ensures rpm.contents == Extended(old(rpm.contents), seriesKey, DateInMinute(m.timeEnded))
    {
      CountOne(m.ack, segmentKey);
      KeepDuration(durationKey, m.durationMs);
      rpm.Add(seriesKey, DateInMinute(m.timeEnded));
    }
  }

  /** What `Record` leaves is what the longer input calls for. */
  lemma RecordedSide(ms: seq<Metric>, i: nat, side: Side,
                     totals: Totals, segmentation: map<string, nat>, durations: map<string, seq<real>>,
                         series: map<string, Series>)
    requires i < |ms| && OnSide(side, ms[i])
    requires HoldsFor(ms[..i], side, totals, segmentation, durations, series)
    ensures var m := ms[i];
      var s, d, r := KeyOf(side, Segmentation, m).value, KeyOf(side, Durations, m).value,
          KeyOf(side, SeriesMap, m).value;
      HoldsFor(ms[..i + 1], side, Tallied(totals, m.ack), Incremented(segmentation, s),
          KeptFirst(durations, d, m.durationMs),
               Extended(series, r, DateInMinute(m.timeEnded)))
  {
    var m := ms[i];
    var s, d, r := KeyOf(side, Segmentation, m).value, KeyOf(side, Durations, m).value, KeyOf(side, SeriesMap, m).value;
    TotalsStep(ms, i, side);
    SegmentationStep(segmentation, ms, i, side, s);
    DurationsStep(durations, ms, i, side, d);
    SeriesMapStep(series, ms, i, side, r);
  }

  lemma SegmentationStep(segmentation: map<string, nat>, ms: seq<Metric>, i: nat, side: Side, k: string)
    requires i < |ms| && KeyOf(side, Segmentation, ms[i]) == Some(k)
        && Indexes(segmentation, ms[..i], side, Segmentation, Size)
    ensures Indexes(Incremented(segmentation, k), ms[..i + 1], side, Segmentation, Size)
  {
    IndexHit(segmentation, ms, i, side, Segmentation, Size, k, (if k in segmentation then segmentation[k] else 0) + 1);
  }

  lemma DurationsStep(durations: map<string, seq<real>>, ms: seq<Metric>, i: nat, side: Side, k: string)
    requires i < |ms| && KeyOf(side, Durations, ms[i]) == Some(k)
        && Indexes(durations, ms[..i], side, Durations, FirstDuration)
    ensures Indexes(KeptFirst(durations, k, ms[i].durationMs), ms[..i + 1], side, Durations, FirstDuration)
  {
    if k in durations {
      IndexFirst(durations, ms, i, side, Durations, k);
    } else {
      IndexHit(durations, ms, i, side, Durations, FirstDuration, k, [ms[i].durationMs as real]);
    }
  }

  lemma SeriesMapStep(series: map<string, Series>, ms: seq<Metric>, i: nat, side: Side, k: string)
    requires i < |ms| && KeyOf(side, SeriesMap, ms[i]) == Some(k) && Indexes(series, ms[..i], side, SeriesMap, SeriesOf)
    ensures Indexes(Extended(series, k, DateInMinute(ms[i].timeEnded)), ms[..i + 1], side, SeriesMap, SeriesOf)
  {
    SeriesStep(Group(ms[..i], side, SeriesMap, k), ms[i]);
    IndexHit(series, ms, i, side, SeriesMap, SeriesOf, k,
        Extend(if k in series then series[k] else NO_SERIES, DateInMinute(ms[i].timeEnded)));
  }

  /** A metric of the other side changes nothing. */
  lemma SkippedSide(ms: seq<Metric>, i: nat, side: Side,
                    totals: Totals, segmentation: map<string, nat>, durations: map<string, seq<real>>,
                        series: map<string, Series>)
    requires i < |ms| && !OnSide(side, ms[i])
    requires HoldsFor(ms[..i], side, totals, segmentation, durations, series)
    ensures HoldsFor(ms[..i + 1], side, totals, segmentation, durations, series)
  {
    TotalsStep(ms, i, side);
    IndexSkip(segmentation, ms, i, side, Segmentation, Size);
    IndexSkip(durations, ms, i, side, Durations, FirstDuration);
    IndexSkip(series, ms, i, side, SeriesMap, SeriesOf);
  }

  // ----- the report -----

  /** Percentiles of every duration list, one key after another in no particular order. */
  method Percentiles(durations: map<string, seq<real>>, p: real) returns (values: map<string, real>)
    requires 0.0 <= p <= 1.0 && forall k :: k in durations ==> durations[k] != []
    ensures values.Keys == durations.Keys
    ensures forall k :: k in durations ==> values[k] == Percentile.Value(durations[k], p)
  {
    values := map[];
    var left := durations.Keys;
    while left != {}
      invariant left <= durations.Keys && values.Keys == durations.Keys - left
      invariant forall k :: k in values ==> values[k] == Percentile.Value(durations[k], p)
      decreases left
    {
      var k :| k in left;
      var r := Percentile.Percentile(durations[k], p);
      values := values[k := r.value];
      left := left - {k};
    }
  }

  lemma OneSample(x: real, p: real)
    requires 0.0 <= p <= 1.0
    ensures Percentile.Value([x], p) == x
  {
    Percentile.RankBounds(1, p, p);
    assert [x][1..] == [] && Percentile.Sort([x]) == [x];
  }

  lemma FirstValues(durations: map<string, seq<real>>, values: map<string, real>, ms: seq<Metric>, side: Side, p: real)
    requires 0.0 <= p <= 1.0 && Indexes(durations, ms, side, Durations, FirstDuration)
    requires values.Keys == durations.Keys && forall k :: k in durations ==>
        durations[k] != [] && values[k] == Percentile.Value(durations[k], p)
    ensures Indexes(values, ms, side, Durations, FirstValue)
  {
    forall k | k in durations
      ensures values[k] == FirstValue(Group(ms, side, Durations, k))
    {
      OneSample(durations[k][0], p);
    }
  }

  /** The report of a list of metrics, side by side. */
  ghost predicate Reports(r: Insights, ms: seq<Metric>) {
    && r.published == TotalsOf(ms, Publishers)
    && r.consumed == TotalsOf(ms, Consumers)
    && Indexes(r.segmentationPublished, ms, Publishers, Segmentation, Size)
    && Indexes(r.segmentationConsumed, ms, Consumers, Segmentation, Size)
    && Indexes(r.rpmPublisher, ms, Publishers, SeriesMap, SeriesOf)
    && Indexes(r.rpmConsumer, ms, Consumers, SeriesMap, SeriesOf)
    && Indexes(r.p99Published, ms, Publishers, Durations, FirstValue)
    && Indexes(r.p75Published, ms, Publishers, Durations, FirstValue)
    && Indexes(r.p99Consumed, ms, Consumers, Durations, FirstValue)
    && Indexes(r.p75Consumed, ms, Consumers, Durations, FirstValue)
  }

  /** The two sides do not share objects. */
  ghost predicate Apart(consumers: SideReport, publishers: SideReport)
    reads consumers, publishers, consumers.rpm, publishers.rpm, consumers.rpm.repr, publishers.rpm.repr
  {
    && consumers.Valid() && publishers.Valid()
    && consumers != publishers && consumers.rpm != publishers.rpm && consumers.rpm.repr !! publishers.rpm.repr
  }

  /** The loop body of `Insights`: metric `i` goes to the consumers when it names one, to the publishers otherwise. */
  method RecordMetric(ms: seq<Metric>, i: nat, consumers: SideReport, publishers: SideReport)
    requires i < |ms| && Apart(consumers, publishers)
    requires consumers.Reflects(ms[..i], Consumers) && publishers.Reflects(ms[..i], Publishers)
    modifies consumers, consumers.rpm, consumers.rpm.repr, publishers, publishers.rpm, publishers.rpm.repr
    ensures Apart(consumers, publishers)
    ensures fresh(consumers.rpm.repr - old(consumers.rpm.repr)) && fresh(publishers.rpm.repr - old(publishers.rpm.repr))
    ensures consumers.Reflects(ms[..i + 1], Consumers) && publishers.Reflects(ms[..i + 1], Publishers)
  {
    var m := ms[i];
    if m.consumerName != "" {
      SkippedSide(ms, i, Publishers, publishers.totals, publishers.segmentation, publishers.durations,
          publishers.rpm.contents);
      RecordAt(consumers, ms, i, Consumers, m.consumerName,
               m.topicName + ":" + m.consumerName, m.topicName + "." + m.consumerName);
    } else {
      SkippedSide(ms, i, Consumers, consumers.totals, consumers.segmentation, consumers.durations,
          consumers.rpm.contents);
      RecordAt(publishers, ms, i, Publishers, m.topicName, m.topicName, m.topicName);
    }
  }

  /** Recording metric `i` on its own side. */
  method RecordAt(report: SideReport, ms: seq<Metric>, i: nat, ghost side: Side, segmentKey: string,
                  seriesKey: string, durationKey: string)
    requires i < |ms| && OnSide(side, ms[i]) && report.Valid() && report.Reflects(ms[..i], side)
    requires KeyOf(side, Segmentation, ms[i]) == Some(segmentKey)
    requires KeyOf(side, SeriesMap, ms[i]) == Some(seriesKey) && KeyOf(side, Durations, ms[i]) == Some(durationKey)
    modifies report, report.rpm, report.rpm.repr
    ensures report.Valid() && fresh(report.rpm.repr - old(report.rpm.repr)) && report.Reflects(ms[..i + 1], side)
  {
    RecordedSide(ms, i, side, report.totals, report.segmentation, report.durations, report.rpm.contents);
    report.Record(ms[i], segmentKey, seriesKey, durationKey);
  }

  /** The percentile loops and the series of one side. */
  method Summarize(side: SideReport, ghost ms: seq<Metric>, ghost which: Side)
    returns (series: map<string, Series>, p99: map<string, real>, p75: map<string, real>)
    requires side.Valid() && side.Reflects(ms, which)
    ensures Indexes(series, ms, which, SeriesMap, SeriesOf)
    ensures Indexes(p99, ms, which, Durations, FirstValue) && Indexes(p75, ms, which, Durations, FirstValue)
  {
    p99 := Percentiles(side.durations, 0.99);
    p75 := Percentiles(side.durations, 0.75);
    FirstValues(side.durations, p99, ms, which, 0.99);
    FirstValues(side.durations, p75, ms, which, 0.75);
    series := side.rpm.Export();
  }

  /** The loop over the metrics. */
  method RecordAll(ms: seq<Metric>, consumers: SideReport, publishers: SideReport)
    requires Apart(consumers, publishers) && consumers.Reflects([], Consumers) && publishers.Reflects([], Publishers)
    modifies consumers, consumers.rpm, consumers.rpm.repr, publishers, publishers.rpm, publishers.rpm.repr
    ensures Apart(consumers, publishers) && consumers.Reflects(ms, Consumers) && publishers.Reflects(ms, Publishers)
  {
    for i := 0 to |ms|
      invariant Apart(consumers, publishers)
      invariant fresh(consumers.rpm.repr - old(consumers.rpm.repr))
          && fresh(publishers.rpm.repr - old(publishers.rpm.repr))
      invariant consumers.Reflects(ms[..i], Consumers) && publishers.Reflects(ms[..i], Publishers)
    {
      RecordMetric(ms, i, consumers, publishers);
    }
    assert ms[..|ms|] == ms;
  }

  /** `Metrics.Insights`. */
  method ComputeInsights(ms: seq<Metric>) returns (r: Insights)
    ensures Reports(r, ms)
  {
    var consumers := new SideReport();
    var publishers := new SideReport();
    RecordAll(ms, consumers, publishers);
    var rc, p99c, p75c := Summarize(consumers, ms, Consumers);
    var rp, p99p, p75p := Summarize(publishers, ms, Publishers);
    r := Insights(publishers.totals, consumers.totals, publishers.segmentation, consumers.segmentation, rp, rc, p99p,
        p75p, p99c, p75c);
  }

  // ----- what the numbers add up to -----

  /** Sum of the values of a map. */
  ghost function MapTotal(t: map<string, nat>): nat {
    if t == map[] then 0
    else
      var k :| k in t;
      t[k] + MapTotal(t - {k})
  }

  lemma {:induction false} MapTotalRemove(t: map<string, nat>, k: string)
    requires k in t
    ensures MapTotal(t) == t[k] + MapTotal(t - {k})
    decreases |t|
  {
    var j :| j in t && MapTotal(t) == t[j] + MapTotal(t - {j});
    if j != k {
      MapTotalRemove(t - {j}, k);
      MapTotalRemove(t - {k}, j);
      assert t - {j} - {k} == t - {k} - {j};
    }
  }

  /** The success and error counts of each side add up to its total, and so do the two sides to all metrics. */
  lemma {:induction false} CountsAddUp(ms: seq<Metric>)
    ensures forall side :: CountOn(ms, side, {true, false}) == CountOn(ms, side, {true}) + CountOn(ms, side, {false})
    ensures CountOn(ms, Consumers, {true, false}) + CountOn(ms, Publishers, {true, false}) == |ms|
  {
    if ms != [] {
      CountsAddUp(ms[..|ms| - 1]);
    }
  }

  /** The segmentation of a side sums up to its total. */
  lemma {:induction false} SegmentationAddsUp(t: map<string, nat>, ms: seq<Metric>, side: Side)
    requires Indexes(t, ms, side, Segmentation, Size)
    ensures MapTotal(t) == CountOn(ms, side, {true, false})
  {
    if ms == [] {
      assert forall k :: k in t ==> Group(ms, side, Segmentation, k) != [];
      assert t == map[];
    } else {
      var n := |ms| - 1;
      assert ms[..n + 1] == ms;
      CountStep(ms, n, side, {true, false});
      var before := Shorter(t, ms[..n], side);
      ShorterIndex(t, ms, side);
      SegmentationAddsUp(before, ms[..n], side);
      ShorterTotal(t, before, KeyOf(side, Segmentation, ms[n]));
    }
  }

  /** The segmentation of a shorter input, cut out of a longer one's. */
  function Shorter(t: map<string, nat>, init: seq<Metric>, side: Side): map<string, nat> {
    map k | k in t && Group(init, side, Segmentation, k) != [] :: |Group(init, side, Segmentation, k)|
  }

  lemma ShorterIndex(t: map<string, nat>, ms: seq<Metric>, side: Side)
    requires ms != [] && Indexes(t, ms, side, Segmentation, Size)
    ensures var before := Shorter(t, ms[..|ms| - 1], side);
      && Indexes(before, ms[..|ms| - 1], side, Segmentation, Size)
      && OneMore(t, before, KeyOf(side, Segmentation, ms[|ms| - 1]))
  {
    var n := |ms| - 1;
    assert ms[..n + 1] == ms;
    forall j {
      GroupStep(ms, n, side, Segmentation, j);
    }
  }

  /** `t` counts one more under `key`, if there is one, and the same elsewhere. */
  ghost predicate OneMore(t: map<string, nat>, before: map<string, nat>, key: Option<string>) {
    && (key.Some? ==> key.value in t && t[key.value] == (if key.value in before then before[key.value] else 0) + 1)
    && (forall j :: key != Some(j) ==> (j in t <==> j in before) && (j in t ==> t[j] == before[j]))
  }

  lemma ShorterTotal(t: map<string, nat>, before: map<string, nat>, key: Option<string>)
    requires OneMore(t, before, key)
    ensures MapTotal(t) == MapTotal(before) + if key.Some? then 1 else 0
  {
    match key
    case None => assert t == before;
    case Some(k) => MapTotalStep(t, before, k);
  }

  lemma MapTotalStep(t: map<string, nat>, before: map<string, nat>, k: string)
    requires k in t && t[k] == (if k in before then before[k] else 0) + 1
    requires forall j :: j != k ==> (j in t <==> j in before) && (j in t ==> t[j] == before[j])
    ensures MapTotal(t) == MapTotal(before) + 1
  {
    MapTotalRemove(t, k);
    assert t - {k} == before - {k};
    if k in before {
      MapTotalRemove(before, k);
    } else {
      assert before - {k} == before;
    }
  }

  /**
   In every report success and error counts add up to the totals, the
   totals to the input, and each segmentation to its total.
   */
  lemma ReportAddsUp(r: Insights, ms: seq<Metric>)
    requires Reports(r, ms)
    ensures r.consumed.success + r.consumed.error == r.consumed.total
    ensures r.published.success + r.published.error == r.published.total
    ensures r.consumed.total + r.published.total == |ms|
    ensures MapTotal(r.segmentationConsumed) == r.consumed.total
        && MapTotal(r.segmentationPublished) == r.published.total
  {
    CountsAddUp(ms);
    SegmentationAddsUp(r.segmentationConsumed, ms, Consumers);
    SegmentationAddsUp(r.segmentationPublished, ms, Publishers);
  }

  /** For every key the reported series expands to exactly the minutes of that key's metrics, in input order. */
  lemma SeriesExpand(r: Insights, ms: seq<Metric>, k: string)
    requires Reports(r, ms)
    ensures k in r.rpmConsumer ==>
        RunLength(r.rpmConsumer[k]) && Expand(r.rpmConsumer[k]) == Minutes(Group(ms, Consumers, SeriesMap, k))
    ensures k in r.rpmPublisher ==>
        RunLength(r.rpmPublisher[k]) && Expand(r.rpmPublisher[k]) == Minutes(Group(ms, Publishers, SeriesMap, k))
  {
    EncodeExpands(Minutes(Group(ms, Consumers, SeriesMap, k)));
    EncodeExpands(Minutes(Group(ms, Publishers, SeriesMap, k)));
  }
}
