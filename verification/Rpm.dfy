/** Requests-per-minute series: `RpmPublisher.add` and `RpmConsumer.add` of `internal/domain/metric.go`. */
module Rpm {
  datatype Series = Series(timeseries: seq<int>, values: seq<int>)

  const NO_SERIES := Series([], [])

  predicate Aligned(s: Series) {
    |s.timeseries| == |s.values|
  }

  /** One more metric in a minute. */
  function Extend(s: Series, minute: int): Series
    requires Aligned(s)
  {
    var n := |s.timeseries|;
    if n > 0 && s.timeseries[n - 1] == minute then s.(values := s.values[n - 1 := s.values[n - 1] + 1])
    else Series(s.timeseries + [minute], s.values + [1])
  }

  /** The series after the metrics of these minutes, in order. */
  function Encode(minutes: seq<int>): (s: Series)
    ensures Aligned(s) && (s.timeseries == [] <==> minutes == [])
  {
    if minutes == [] then NO_SERIES else Extend(Encode(minutes[..|minutes| - 1]), minutes[|minutes| - 1])
  }

  function Repeat(x: int, n: nat): seq<int> {
    seq(n, i => x)
  }

  /** Each minute repeated as often as its value says. */
  function Expand(s: Series): seq<int>
    requires Aligned(s)
    decreases |s.timeseries|
  {
    var n := |s.timeseries|;
    if n == 0 then []
    else
      Expand(Series(s.timeseries[..n - 1], s.values[..n - 1]))
      + (if s.values[n - 1] > 0 then Repeat(s.timeseries[n - 1], s.values[n - 1]) else [])
  }

  /** A run-length encoding: positive run lengths, neighbouring minutes differ. */
  predicate RunLength(s: Series) {
    && Aligned(s)
    && (forall i :: 0 <= i < |s.values| ==> s.values[i] >= 1)
    && (forall i :: 0 < i < |s.timeseries| ==> s.timeseries[i - 1] != s.timeseries[i])
  }

  // ----- the entries are shared objects updated in place -----

  class Entry {
    var timeseries: seq<int>
    var values: seq<int>

    constructor (minute: int)
      ensures timeseries == [minute] && values == [1]
    {
      timeseries, values := [minute], [1];
    }

    /** Counts one more metric: in the last minute, or in a new one. */
    method AddMinute(minute: int)
      requires |timeseries| == |values| > 0
      modifies this
      ensures Series(timeseries, values) == Extend(old(Series(timeseries, values)), minute)
    {
      var last := |timeseries| - 1;
      if timeseries[last] == minute {
        values := values[last := values[last] + 1];
      } else {
        timeseries := timeseries + [minute];
        values := values + [1];
      }
    }
  }

  class RpmIndex {
    var entries: map<string, Entry>
    ghost var contents: map<string, Series>  // what the entries hold
    ghost var repr: set<Entry>               // the entries

    /** Every key has its own entry, which is never empty. */
    ghost predicate Valid()
      reads this, repr
    {
      && entries.Keys == contents.Keys
      && (forall k :: k in entries ==>
        && entries[k] in repr
        && contents[k] == Series(entries[k].timeseries, entries[k].values)
        && Aligned(contents[k]) && contents[k].timeseries != [])
      && (forall j, k :: j in entries && k in entries && j != k ==> entries[j] != entries[k])
    }

    constructor ()
      ensures Valid() && contents == map[] && fresh(repr)
    {
      entries, contents, repr := map[], map[], {};
    }

    /** `add`: extends the last minute of the key in place, appends a minute, or starts a new entry. */
    method Add(key: string, minute: int)
      requires Valid()
      modifies this, repr
      ensures Valid() && fresh(repr - old(repr))
      ensures contents == old(contents)[key :=
          Extend(if key in old(contents) then old(contents)[key] else NO_SERIES, minute)]
    {
      if key in entries {
        var data := entries[key];
        data.AddMinute(minute);
      } else {
        var data := new Entry(minute);
        entries := entries[key := data];
        repr := repr + {data};
      }
      assert [] + [minute] == [minute] && [] + [1] == [1];
      contents := contents[key := Extend(if key in contents then contents[key] else NO_SERIES, minute)];
    }

    /** Copies the series out of the entries. */
    method Export() returns (series: map<string, Series>)
      requires Valid()
      ensures series == contents
    {
      series := map k | k in entries :: Series(entries[k].timeseries, entries[k].values);
    }
  }

  // ----- the series are run-length encodings -----

  lemma ExpandSnoc(times: seq<int>, values: seq<int>, minute: int, n: nat)
    requires |times| == |values| && n > 0
    ensures Expand(Series(times + [minute], values + [n])) == Expand(Series(times, values)) + Repeat(minute, n)
  {
    assert (times + [minute])[..|times|] == times && (values + [n])[..|values|] == values;
  }

  lemma RepeatSnoc(x: int, n: nat)
    ensures Repeat(x, n + 1) == Repeat(x, n) + [x]
  {
  }

  /** Every series that is not empty ends with a minute and its value. */
  lemma LastEntry(s: Series) returns (times: seq<int>, values: seq<int>, minute: int, value: int)
    requires Aligned(s) && s.timeseries != []
    ensures |times| == |values| && s == Series(times + [minute], values + [value])
    ensures minute == s.timeseries[|s.timeseries| - 1] && value == s.values[|s.values| - 1]
  {
    var n := |s.timeseries| - 1;
    times, values, minute, value := s.timeseries[..n], s.values[..n], s.timeseries[n], s.values[n];
  }

  lemma ExtendSame(times: seq<int>, values: seq<int>, minute: int, value: int)
    requires |times| == |values|
    ensures Extend(Series(times + [minute], values + [value]), minute) == Series(times + [minute], values + [value + 1])
  {
  }

  lemma ExpandExtend(s: Series, minute: int)
    requires RunLength(s)
    ensures Expand(Extend(s, minute)) == Expand(s) + [minute]
  {
    var n := |s.timeseries|;
    if n > 0 && s.timeseries[n - 1] == minute {
      var times, values, last, value := LastEntry(s);
      ExtendSame(times, values, minute, value);
      ExpandBump(times, values, minute, value);
    } else {
      ExpandSnoc(s.timeseries, s.values, minute, 1);
      assert Repeat(minute, 1) == [minute];
    }
  }

  lemma ExpandBump(times: seq<int>, values: seq<int>, minute: int, value: nat)
    requires |times| == |values| && value > 0
    ensures Expand(Series(times + [minute], values + [value + 1]))
        == Expand(Series(times + [minute], values + [value])) + [minute]
  {
    ExpandSnoc(times, values, minute, value);
    ExpandSnoc(times, values, minute, value + 1);
    RepeatSnoc(minute, value);
    var front := Expand(Series(times, values));
    assert front + (Repeat(minute, value) + [minute]) == front + Repeat(minute, value) + [minute];
  }

  lemma RunLengthExtend(s: Series, minute: int)
    requires RunLength(s)
    ensures RunLength(Extend(s, minute))
  {
  }

  lemma EncodeSnoc(minutes: seq<int>, minute: int)
    ensures Encode(minutes + [minute]) == Extend(Encode(minutes), minute)
  {
    assert (minutes + [minute])[..|minutes|] == minutes;
  }

  /** Expanding the series gives back exactly the minutes, in input order. */
  lemma {:induction false} EncodeExpands(minutes: seq<int>)
    ensures RunLength(Encode(minutes)) && Expand(Encode(minutes)) == minutes
  {
    if minutes != [] {
      var init, last := minutes[..|minutes| - 1], minutes[|minutes| - 1];
      assert minutes == init + [last];
      EncodeExpands(init);
      EncodeSnoc(init, last);
      RunLengthExtend(Encode(init), last);
      ExpandExtend(Encode(init), last);
    }
  }

  predicate InOrder(minutes: seq<int>) {
    forall i :: 0 < i < |minutes| ==> minutes[i - 1] <= minutes[i]
  }

  predicate Increasing(times: seq<int>) {
    forall i :: 0 < i < |times| ==> times[i - 1] < times[i]
  }

  function Count(minutes: seq<int>, minute: int): nat {
    if minutes == [] then 0
    else Count(minutes[..|minutes| - 1], minute) + if minutes[|minutes| - 1] == minute then 1 else 0
  }

  /** Each value is the exact count of its minute. */
  predicate Counts(s: Series, minutes: seq<int>) {
    Aligned(s) && forall i :: 0 <= i < |s.timeseries| ==> s.values[i] == Count(minutes, s.timeseries[i])
  }

  lemma CountSnoc(minutes: seq<int>, minute: int, x: int)
    ensures Count(minutes + [minute], x) == Count(minutes, x) + if minute == x then 1 else 0
  {
    assert (minutes + [minute])[..|minutes|] == minutes;
  }

  lemma OrderedInit(before: seq<int>, minute: int)
    requires InOrder(before + [minute])
    ensures InOrder(before) && (before != [] ==> before[|before| - 1] <= minute)
  {
    var after := before + [minute];
    assert before == after[..|before|];
    if before != [] {
      assert after[|before| - 1] <= after[|before|];
    }
  }

  /** A later minute starts a new entry with count 1. */
  lemma OrderedAppend(s: Series, before: seq<int>, minute: int)
    requires Increasing(s.timeseries) && Counts(s, before) && InOrder(before)
        && (before != [] ==> before[|before| - 1] < minute)
    requires s.timeseries != [] ==> s.timeseries[|s.timeseries| - 1] < minute
    ensures var e := Extend(s, minute); Increasing(e.timeseries) && Counts(e, before + [minute])
  {
    IncreasingBelow(s.timeseries, minute);
    CountZero(before, minute);
    forall x {
      CountSnoc(before, minute, x);
    }
  }

  /** The same minute again raises the last count. */
  lemma OrderedBump(s: Series, before: seq<int>, minute: int)
    requires Increasing(s.timeseries) && Counts(s, before)
    requires s.timeseries != [] && s.timeseries[|s.timeseries| - 1] == minute
    ensures var e := Extend(s, minute); Increasing(e.timeseries) && Counts(e, before + [minute])
  {
    IncreasingBelow(s.timeseries[..|s.timeseries| - 1], minute);
    forall x {
      CountSnoc(before, minute, x);
    }
  }

  /** One more metric, not earlier than the last. */
  lemma OrderedStep(s: Series, before: seq<int>, minute: int)
    requires Increasing(s.timeseries) && Counts(s, before) && InOrder(before + [minute])
    requires (before == []) == (s.timeseries == [])
    requires before != [] ==> s.timeseries[|s.timeseries| - 1] == before[|before| - 1]
    ensures var e := Extend(s, minute);
      Increasing(e.timeseries) && Counts(e, before + [minute]) && e.timeseries[|e.timeseries| - 1] == minute
  {
    OrderedInit(before, minute);
    if before == [] || before[|before| - 1] < minute {
      OrderedAppend(s, before, minute);
    } else {
      OrderedBump(s, before, minute);
    }
  }

  /** When minutes arrive in order, each minute appears once, in order, with its exact count. */
  lemma {:induction false} OrderedSeries(minutes: seq<int>)
    requires InOrder(minutes)
    ensures var s := Encode(minutes);
      && Increasing(s.timeseries)
      && (minutes != [] ==> s.timeseries[|s.timeseries| - 1] == minutes[|minutes| - 1])
      && Counts(s, minutes)
  {
    if minutes != [] {
      var n := |minutes| - 1;
      OrderedSeries(minutes[..n]);
      assert minutes[..n] + [minutes[n]] == minutes;
      OrderedStep(Encode(minutes[..n]), minutes[..n], minutes[n]);
    }
  }

  lemma {:induction false} IncreasingBelow(times: seq<int>, minute: int)
    requires Increasing(times) && (times != [] ==> times[|times| - 1] < minute)
    ensures forall i :: 0 <= i < |times| ==> times[i] < minute
  {
    if times != [] {
      IncreasingBelow(times[..|times| - 1], times[|times| - 1]);
    }
  }

  lemma {:induction false} CountZero(minutes: seq<int>, minute: int)
    requires InOrder(minutes) && (minutes != [] ==> minutes[|minutes| - 1] < minute)
    ensures Count(minutes, minute) == 0
  {
    if |minutes| > 1 {
      var n := |minutes| - 1;
      assert minutes[n - 1] <= minutes[n];
      CountZero(minutes[..n], minute);
    }
  }
}
