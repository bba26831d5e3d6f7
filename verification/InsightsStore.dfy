/**
 Recording of metrics in Redis and their listing (`internal/storests`). Redis is a map of sorted sets and a
 map of sets; every command answers with a reply that may be lost although the command was applied.
 */
module InsightsStore {
  import opened Prelude
  import opened Metric
  import Strconv
  import Strings

  /** What is stored: the JSON of a publisher or of a consumer metric, which are different texts. */
  datatype Recorded =
    | PublishedMetric(topicName: string, timeStarted: int, timeEnded: int, durationMs: int, ack: bool)
    | ConsumedMetric(topicName: string, consumerName: string, timeStarted: int, timeEnded: int, durationMs: int,
        ack: bool)

  /** Decoding into `domain.Metric`: a publisher metric has no consumer name. */
  function Decode(rec: Recorded): (m: Metric)
    ensures m.topicName == rec.topicName && m.timeStarted == rec.timeStarted && m.timeEnded == rec.timeEnded
    ensures m.durationMs == rec.durationMs && m.ack == rec.ack
    ensures m.consumerName == if rec.ConsumedMetric? then rec.consumerName else ""
  {
    match rec
    case PublishedMetric(t, s, e, d, a) => Metric(t, "", s, e, d, a)
    case ConsumedMetric(t, c, s, e, d, a) => Metric(t, c, s, e, d, a)
  }

  function DecodeAll(listing: seq<Recorded>): seq<Metric> {
    seq(|listing|, i requires 0 <= i < |listing| => Decode(listing[i]))
  }

  // ----- keys -----

  function Key(typeEvent: string, values: seq<string>, day: nat): string {
    Strings.Join(["gqueue:insights", typeEvent] + values + [Strconv.FormatInt(day)], ":")
  }

  /** The sorted set a metric goes to. */
  function DataKey(rec: Recorded, day: nat): string {
    var outcome := if rec.ack then "success" else "failure";
    match rec
    case PublishedMetric(t, _, _, _, _) => Key("event-published", [outcome, t], day)
    case ConsumedMetric(t, c, _, _, _, _) => Key("event-consumed", [outcome, t, c], day)
  }

  /** The set that lists the sorted sets of a day. */
  function GroupKey(day: nat): string {
    Key("group-insights", [], day)
  }

  /** The text of a key up to the day. */
  function KeyStem(typeEvent: string, values: seq<string>): string {
    "gqueue:insights:" + typeEvent + ":" + if values == [] then "" else Strings.Join(values, ":") + ":"
  }

  lemma {:induction false} JoinLast(values: seq<string>, last: string)
    ensures Strings.Join(values + [last], ":") == if values == [] then last else Strings.Join(values, ":") + ":" + last
  {
    if values == [] {
      assert values + [last] == [last];
    } else {
      Strings.JoinAppend(values, last, ":");
    }
  }

  lemma KeyIsStemAndDay(typeEvent: string, values: seq<string>, day: nat)
    ensures Key(typeEvent, values, day) == KeyStem(typeEvent, values) + Strconv.FormatInt(day)
  {
    var d := Strconv.FormatInt(day);
    JoinLast(values, d);
    var tail := values + [d];
    assert ["gqueue:insights", typeEvent] + values + [d] == ["gqueue:insights"] + ([typeEvent] + tail);
    assert ([typeEvent] + tail)[1..] == tail && (["gqueue:insights"] + ([typeEvent] + tail))[1..] == [typeEvent] + tail;
    assert Strings.Join([typeEvent] + tail, ":") == typeEvent + ":" + Strings.Join(tail, ":");
    assert "gqueue:insights" + ":" == "gqueue:insights:";
  }

  lemma StemThenDay(stem: string, d: nat, e: nat)
    ensures stem + Strconv.FormatInt(d) == stem + Strconv.FormatInt(e) <==> d == e
  {
    if stem + Strconv.FormatInt(d) == stem + Strconv.FormatInt(e) {
      assert (stem + Strconv.FormatInt(d))[|stem|..] == Strconv.FormatInt(d);
      assert (stem + Strconv.FormatInt(e))[|stem|..] == Strconv.FormatInt(e);
      Strconv.FormatInjective(d, e);
    }
  }

  /** Every day has its own group, and every metric its own sorted set on every day. */
  lemma KeysTellDays(rec: Recorded, d: nat, e: nat)
    ensures GroupKey(d) == GroupKey(e) <==> d == e
    ensures DataKey(rec, d) == DataKey(rec, e) <==> d == e
  {
    GroupKeyText(d);
    GroupKeyText(e);
    StemThenDay("gqueue:insights:group-insights:", d, e);
    DataKeysTellDays(rec, d, e);
  }

  lemma DataKeysTellDays(rec: Recorded, d: nat, e: nat)
    ensures DataKey(rec, d) == DataKey(rec, e) <==> d == e
  {
    var outcome := if rec.ack then "success" else "failure";
    var typeEvent := if rec.PublishedMetric? then "event-published" else "event-consumed";
    var values := if rec.PublishedMetric? then [outcome, rec.topicName] else [outcome, rec.topicName, rec.consumerName];
    KeyIsStemAndDay(typeEvent, values, d);
    KeyIsStemAndDay(typeEvent, values, e);
    StemThenDay(KeyStem(typeEvent, values), d, e);
  }

  lemma GroupKeyText(day: nat)
    ensures GroupKey(day) == "gqueue:insights:group-insights:" + Strconv.FormatInt(day)
  {
    KeyIsStemAndDay("group-insights", [], day);
    assert KeyStem("group-insights", []) == "gqueue:insights:group-insights:";
  }

  lemma HeadText(typeEvent: string, head: string, values: seq<string>, day: nat)
    requires values != [] && head == "gqueue:insights:" + typeEvent + ":"
    ensures Key(typeEvent, values, day) == head + Strings.Join(values, ":") + ":" + Strconv.FormatInt(day)
  {
    KeyIsStemAndDay(typeEvent, values, day);
    StemText(head, Strings.Join(values, ":"), Strconv.FormatInt(day));
  }

  /** The key of a publisher metric, letter by letter. */
  lemma PublishedKeyText(rec: Recorded, day: nat)
    requires rec.PublishedMetric?
    ensures DataKey(rec, day) == "gqueue:insights:event-published:"
      + ((if rec.ack then "success" else "failure") + ":" + rec.topicName) + ":" + Strconv.FormatInt(day)
  {
    var outcome := if rec.ack then "success" else "failure";
    HeadText("event-published", "gqueue:insights:event-published:", [outcome, rec.topicName], day);
    TwoParts(outcome, rec.topicName);
  }

  /** The key of a consumer metric, letter by letter. */
  lemma ConsumedKeyText(rec: Recorded, day: nat)
    requires rec.ConsumedMetric?
    ensures DataKey(rec, day) == "gqueue:insights:event-consumed:"
      + ((if rec.ack then "success" else "failure") + ":" + (rec.topicName + ":" + rec.consumerName))
      + ":" + Strconv.FormatInt(day)
  {
    var outcome := if rec.ack then "success" else "failure";
    HeadText("event-consumed", "gqueue:insights:event-consumed:", [outcome, rec.topicName, rec.consumerName], day);
    ThreeParts(outcome, rec.topicName, rec.consumerName);
  }

  lemma StemText(head: string, middle: string, d: string)
    ensures head + (middle + ":") + d == head + middle + ":" + d
  {
  }

  lemma TwoParts(a: string, b: string)
    ensures Strings.Join([a, b], ":") == a + ":" + b
  {
    assert [a, b][1..] == [b];
    assert Strings.Join([b], ":") == b;
  }

  lemma ThreeParts(a: string, b: string, c: string)
    ensures Strings.Join([a, b, c], ":") == a + ":" + (b + ":" + c)
  {
    assert [a, b, c][1..] == [b, c];
    TwoParts(b, c);
  }

  lemma KeyHead(typeEvent: string, values: seq<string>, day: nat)
    requires typeEvent != ""
    ensures |Key(typeEvent, values, day)| > 16 && Key(typeEvent, values, day)[16] == typeEvent[0]
  {
    var parts := ["gqueue:insights", typeEvent] + values + [Strconv.FormatInt(day)];
    assert parts[1..][0] == typeEvent && |parts[1..]| > 1;
    assert Strings.Join(parts, ":") == "gqueue:insights" + ":" + Strings.Join(parts[1..], ":");
  }

  /** No topic, consumer or day makes a sorted set and the set of keys share a Redis key. */
  lemma DataKeyIsNoGroupKey(rec: Recorded, day: nat, other: nat)
    ensures DataKey(rec, day) != GroupKey(other)
  {
    KeyHead("group-insights", [], other);
    var outcome := if rec.ack then "success" else "failure";
    match rec
    case PublishedMetric(t, _, _, _, _) => KeyHead("event-published", [outcome, t], day);
    case ConsumedMetric(t, c, _, _, _, _) => KeyHead("event-consumed", [outcome, t, c], day);
  }

  // ----- calls and their effect -----

  datatype Reply = Done | Refused | LostReply

  predicate Applied(r: Reply) {
    r != Refused
  }

  /** One call of `Published` or `Consumed`; the two keys are built at two readings of the clock. */
  datatype Call = Call(rec: Recorded, day: nat, groupDay: nat, now: int,
                       marshals: bool, zadd: Reply, expire: Reply, sadd: Reply, groupExpire: Reply)

  datatype State = State(zsets: map<string, map<Recorded, int>>, groups: map<string, set<string>>)

  const EMPTY := State(map[], map[])

  function SortedSet(s: State, key: string): map<Recorded, int> {
    if key in s.zsets then s.zsets[key] else map[]
  }

  function Members(s: State, key: string): set<string> {
    if key in s.groups then s.groups[key] else {}
  }

  predicate Stores(c: Call) {
    c.marshals && Applied(c.zadd)
  }

  /** The call answers success. The group write has no say in it. */
  predicate Succeeds(c: Call) {
    c.marshals && c.zadd == c.expire == Done
  }

  function Step(s: State, c: Call): State {
    var key, group := DataKey(c.rec, c.day), GroupKey(c.groupDay);
    State(if Stores(c) then s.zsets[key := SortedSet(s, key)[c.rec := c.now]] else s.zsets,
          if Applied(c.sadd) then s.groups[group := Members(s, group) + {key}] else s.groups)
  }

  function Exec(s: State, calls: seq<Call>): State {
    if calls == [] then s else Step(Exec(s, calls[..|calls| - 1]), calls[|calls| - 1])
  }

  // ----- listings -----

  predicate NoDup<T(==)>(s: seq<T>) {
    forall i, j :: 0 <= i < j < |s| ==> s[i] != s[j]
  }

  /** An answer of `ZRANGE key 0 -1`: every member once, by ascending score. */
  ghost predicate IsRange(z: map<Recorded, int>, s: seq<Recorded>) {
    && NoDup(s)
    && (forall rec :: rec in s <==> rec in z)
    && (forall i, j :: 0 <= i < j < |s| ==> z[s[i]] <= z[s[j]])
  }

  /** `listing` is the ranges of the sorted sets `keys`, one after another in some order. */
  ghost predicate Listing(s: State, keys: set<string>, listing: seq<Recorded>)
    decreases keys
  {
    if keys == {} then listing == []
    else exists k, n :: k in keys && 0 <= n <= |listing| && LastRange(s, keys, listing, k, n)
  }

  ghost predicate LastRange(s: State, keys: set<string>, listing: seq<Recorded>, k: string, n: nat)
    requires k in keys && n <= |listing|
    decreases keys, 0
  {
    Listing(s, keys - {k}, listing[..n]) && IsRange(SortedSet(s, k), listing[n..])
  }

  lemma {:induction false} LeastScore(z: map<Recorded, int>, rest: set<Recorded>)
    requires rest != {} && rest <= z.Keys
    ensures exists m :: m in rest && forall x :: x in rest ==> z[m] <= z[x]
  {
    var r :| r in rest;
    if rest == {r} {
      assert forall x :: x in rest ==> z[r] <= z[x];
    } else {
      assert rest == {r} + (rest - {r});
      LeastScore(z, rest - {r});
      var m :| m in rest - {r} && forall x :: x in rest - {r} ==> z[m] <= z[x];
      var least := if z[r] < z[m] then r else m;
      assert forall x :: x in rest ==> x == r || x in rest - {r};
      assert forall x :: x in rest ==> z[least] <= z[x];
    }
  }

  /** The server's `ZRANGE`; members of equal score come in any order. */
  method ZRange(z: map<Recorded, int>) returns (s: seq<Recorded>)
    ensures IsRange(z, s)
  {
    s := [];
    var rest := z.Keys;
    while rest != {}
      invariant rest <= z.Keys
      invariant forall i :: 0 <= i < |s| ==> s[i] in z.Keys - rest
      invariant forall rec :: rec in z.Keys - rest ==> rec in s
      invariant NoDup(s)
      invariant forall i, j :: 0 <= i < j < |s| ==> z[s[i]] <= z[s[j]]
      invariant forall i, x :: 0 <= i < |s| && x in rest ==> z[s[i]] <= z[x]
      decreases |rest|
    {
      LeastScore(z, rest);
      var m :| m in rest && forall x :: x in rest ==> z[m] <= z[x];
      s, rest := s + [m], rest - {m};
    }
  }

  lemma ListingGrows(s: State, keys: set<string>, listing: seq<Recorded>, k: string, range: seq<Recorded>)
    requires Listing(s, keys, listing) && k !in keys && IsRange(SortedSet(s, k), range)
    ensures Listing(s, keys + {k}, listing + range)
  {
    assert keys + {k} - {k} == keys;
    assert (listing + range)[..|listing|] == listing && (listing + range)[|listing|..] == range;
    assert LastRange(s, keys + {k}, listing + range, k, |listing|);
  }

  /** `listing` covers the readable keys outside `rest`. */
  ghost predicate Read(s: State, keys: set<string>, rest: set<string>, unreadable: set<string>,
                       listing: seq<Recorded>) {
    Listing(s, keys - rest, listing) && (keys - rest) !! unreadable
  }

  lemma ReadOneMore(s: State, keys: set<string>, rest: set<string>, unreadable: set<string>, listing: seq<Recorded>,
                    k: string, range: seq<Recorded>)
    requires Read(s, keys, rest, unreadable, listing) && k in rest && rest <= keys && k !in unreadable
    requires IsRange(SortedSet(s, k), range)
    ensures Read(s, keys, rest - {k}, unreadable, listing + range)
    ensures DecodeAll(listing + range) == DecodeAll(listing) + DecodeAll(range)
  {
    ListingGrows(s, keys - rest, listing, k, range);
    assert keys - rest + {k} == keys - (rest - {k});
  }

  class Store {
    var zsets: map<string, map<Recorded, int>>
    var groups: map<string, set<string>>

    function View(): State
      reads this
    {
      State(zsets, groups)
    }

    constructor ()
      ensures View() == EMPTY
    {
      zsets, groups := map[], map[];
    }

    method ZAdd(key: string, score: int, member: Recorded, reply: Reply)
      modifies this`zsets
      ensures zsets == if Applied(reply) then old(zsets)[key := SortedSet(old(View()), key)[member := score]]
          else old(zsets)
    {
      if reply != Refused {
        zsets := zsets[key := SortedSet(View(), key)[member := score]];
      }
    }

    /** Lists a key in the day's set. */
    method GroupInsights(key: string, c: Call) returns (r: Result<()>)
      modifies this`groups
      ensures var k := GroupKey(c.groupDay);
        groups == if Applied(c.sadd) then old(groups)[k := Members(old(View()), k) + {key}] else old(groups)
      ensures r.Ok? <==> c.sadd == c.groupExpire == Done
    {
      var k := GroupKey(c.groupDay);
      if c.sadd != Refused {
        groups := groups[k := Members(View(), k) + {key}];
      }
      if c.sadd != Done {
        return Err("sadd");
      }
      r := if c.groupExpire == Done then Ok(()) else Err("expire");
    }

    /** The part before the deferred group write. */
    method Save(key: string, c: Call) returns (r: Result<()>)
      modifies this`zsets
      ensures zsets == if Stores(c) then old(zsets)[key := SortedSet(old(View()), key)[c.rec := c.now]] else old(zsets)
      ensures r.Ok? <==> Succeeds(c)
    {
      if !c.marshals {
        return Err("failed to marshal payload");
      }
      ZAdd(key, c.now, c.rec, c.zadd);
      if c.zadd != Done {
        return Err("failed to save event");
      }
      if c.expire != Done {
        return Err("failed to set TTL for event");
      }
      r := Ok(());
    }

    /** The group write is deferred: it runs on every path, and its error is dropped. */
    method Published(c: Call) returns (r: Result<()>)
      requires c.rec.PublishedMetric?
      modifies this
      ensures View() == Step(old(View()), c)
      ensures r.Ok? <==> Succeeds(c)
    {
      var isSuccess := if c.rec.ack then "success" else "failure";
      var key := Key("event-published", [isSuccess, c.rec.topicName], c.day);
      r := Save(key, c);
      var _ := GroupInsights(key, c);
    }

    method Consumed(c: Call) returns (r: Result<()>)
      requires c.rec.ConsumedMetric?
      modifies this
      ensures View() == Step(old(View()), c)
      ensures r.Ok? <==> Succeeds(c)
    {
      var isSuccess := if c.rec.ack then "success" else "failure";
      var key := Key("event-consumed", [isSuccess, c.rec.topicName, c.rec.consumerName], c.day);
      r := Save(key, c);
      var _ := GroupInsights(key, c);
    }

    /**
     Everything listed for a day, by key in any order. `lists` tells whether the set of keys can be read and
     `unreadable` which sorted sets cannot; what was read before a failure is returned with the error.
     */
    method GetAll(day: nat, lists: bool, unreadable: set<string>)
        returns (output: seq<Metric>, err: Option<string>, ghost read: set<string>, ghost listing: seq<Recorded>)
      ensures read <= Members(View(), GroupKey(day)) && Listing(View(), read, listing) && output == DecodeAll(listing)
      ensures err == None <==> lists && Members(View(), GroupKey(day)) !! unreadable
      ensures err == None ==> read == Members(View(), GroupKey(day))
    {
      output, err, read, listing := [], None, {}, [];
      if !lists {
        err := Some("failed to get insights keys");
        return;
      }
      var s := View();
      var insightsKeys := Members(s, GroupKey(day));
      var rest := insightsKeys;
      while rest != {}
        invariant rest <= insightsKeys && read == insightsKeys - rest && err == None
        invariant Read(s, insightsKeys, rest, unreadable, listing)
        invariant output == DecodeAll(listing)
        decreases |rest|
      {
        var key :| key in rest;
        if key in unreadable {
          err := Some("failed to get insights values");
          return;
        }
        var values := ZRange(SortedSet(s, key));
        ReadOneMore(s, insightsKeys, rest, unreadable, listing, key, values);
        output := output + DecodeAll(values);
        rest, listing := rest - {key}, listing + values;
        read := insightsKeys - rest;
      }
    }
  }

  // ----- which metrics are listed, over any run of calls -----

  lemma {:induction false} ListingMembers(s: State, keys: set<string>, listing: seq<Recorded>, rec: Recorded)
    requires Listing(s, keys, listing)
    ensures rec in listing <==> exists k :: k in keys && rec in SortedSet(s, k)
    decreases keys
  {
    if keys != {} {
      var k, n :| k in keys && 0 <= n <= |listing| && LastRange(s, keys, listing, k, n);
      ListingMembers(s, keys - {k}, listing[..n], rec);
      assert listing == listing[..n] + listing[n..];
      assert rec in listing[n..] <==> rec in SortedSet(s, k);
    }
  }

  lemma {:induction false} StoredIff(calls: seq<Call>, rec: Recorded, k: string)
    ensures rec in SortedSet(Exec(EMPTY, calls), k) <==> exists i :: 0 <= i < |calls| && StoresAs(calls[i], rec, k)
  {
    if calls != [] {
      var n := |calls| - 1;
      StoredIff(calls[..n], rec, k);
      assert forall i :: 0 <= i < n ==> calls[..n][i] == calls[i];
      if StoresAs(calls[n], rec, k) {
        assert rec in SortedSet(Exec(EMPTY, calls), k);
      } else {
        assert rec in SortedSet(Exec(EMPTY, calls), k) <==> rec in SortedSet(Exec(EMPTY, calls[..n]), k);
      }
    }
  }

  /** The call put `rec` into the sorted set `k`. */
  predicate StoresAs(c: Call, rec: Recorded, k: string) {
    Stores(c) && c.rec == rec && DataKey(c.rec, c.day) == k
  }

  /** The call listed the sorted set `k` for the day. */
  predicate ListsKey(c: Call, day: nat, k: string) {
    Applied(c.sadd) && c.groupDay == day && DataKey(c.rec, c.day) == k
  }

  lemma {:induction false} ListedIff(calls: seq<Call>, day: nat, k: string)
    ensures k in Members(Exec(EMPTY, calls), GroupKey(day))
        <==> exists i :: 0 <= i < |calls| && ListsKey(calls[i], day, k)
  {
    if calls != [] {
      var n := |calls| - 1;
      ListedIff(calls[..n], day, k);
      KeysTellDays(calls[n].rec, calls[n].groupDay, day);
      assert forall i :: 0 <= i < n ==> calls[..n][i] == calls[i];
      if ListsKey(calls[n], day, k) {
        assert k in Members(Exec(EMPTY, calls), GroupKey(day));
      } else {
        assert k in Members(Exec(EMPTY, calls), GroupKey(day))
            <==> k in Members(Exec(EMPTY, calls[..n]), GroupKey(day));
      }
    }
  }

  /** `listing` is a complete listing of the day after the calls. */
  ghost predicate Complete(calls: seq<Call>, day: nat, listing: seq<Recorded>) {
    Listing(Exec(EMPTY, calls), Members(Exec(EMPTY, calls), GroupKey(day)), listing)
  }

  /** A metric is listed exactly when some call stored it in a sorted set that some call listed for that day. */
  lemma ListedMetrics(calls: seq<Call>, day: nat, listing: seq<Recorded>, rec: Recorded)
    requires Complete(calls, day, listing)
    ensures rec in listing
        <==> exists i, j :: 0 <= i < |calls| && 0 <= j < |calls| && StoredAndListed(calls[i], calls[j], rec, day)
  {
    var s := Exec(EMPTY, calls);
    var keys := Members(s, GroupKey(day));
    ListingMembers(s, keys, listing, rec);
    if rec in listing {
      var k :| k in keys && rec in SortedSet(s, k);
      StoredIff(calls, rec, k);
      ListedIff(calls, day, k);
      var i :| 0 <= i < |calls| && StoresAs(calls[i], rec, k);
      var j :| 0 <= j < |calls| && ListsKey(calls[j], day, k);
      assert StoredAndListed(calls[i], calls[j], rec, day);
    }
    if i, j :| 0 <= i < |calls| && 0 <= j < |calls| && StoredAndListed(calls[i], calls[j], rec, day) {
      var k := DataKey(rec, calls[i].day);
      StoredIff(calls, rec, k);
      ListedIff(calls, day, k);
      assert StoresAs(calls[i], rec, k) && ListsKey(calls[j], day, k);
    }
  }

  /**
   The same in plain terms: some call encoded the metric and got it into its sorted set, and some call whose
   group day is the day asked for got the key of that set into the group.
   */
  lemma ListedPlainly(calls: seq<Call>, day: nat, listing: seq<Recorded>, rec: Recorded)
    requires Complete(calls, day, listing)
    ensures rec in listing <==>
      exists i, j :: 0 <= i < |calls| && 0 <= j < |calls|
                     && calls[i].rec == rec && calls[i].marshals && calls[i].zadd != Refused
                     && calls[j].groupDay == day && calls[j].sadd != Refused
                     && DataKey(calls[j].rec, calls[j].day) == DataKey(rec, calls[i].day)
  {
    ListedMetrics(calls, day, listing, rec);
    if i, j :| 0 <= i < |calls| && 0 <= j < |calls| && calls[i].rec == rec && calls[i].marshals
               && calls[i].zadd != Refused && calls[j].groupDay == day && calls[j].sadd != Refused
               && DataKey(calls[j].rec, calls[j].day) == DataKey(rec, calls[i].day) {
      assert StoredAndListed(calls[i], calls[j], rec, day);
    }
  }

  /** A day on which no group write was made lists nothing. */
  lemma QuietDay(calls: seq<Call>, day: nat, listing: seq<Recorded>)
    requires Complete(calls, day, listing) && forall i :: 0 <= i < |calls| ==> calls[i].groupDay != day
    ensures listing == []
  {
    if listing != [] {
      ListedPlainly(calls, day, listing, listing[0]);
    }
  }

  /** The score of a stored metric is the time of the last call that stored it. */
  lemma {:induction false} ScoreIsLastCall(calls: seq<Call>, rec: Recorded, k: string, i: nat)
    requires i < |calls| && StoresAs(calls[i], rec, k) && forall j :: i < j < |calls| ==> !StoresAs(calls[j], rec, k)
    ensures rec in SortedSet(Exec(EMPTY, calls), k) && SortedSet(Exec(EMPTY, calls), k)[rec] == calls[i].now
  {
    var n := |calls| - 1;
    if i < n {
      assert forall j :: 0 <= j < n ==> calls[..n][j] == calls[j];
      ScoreIsLastCall(calls[..n], rec, k, i);
      assert !StoresAs(calls[n], rec, k);
    }
  }

  predicate StoredAndListed(storing: Call, listing: Call, rec: Recorded, day: nat) {
    StoresAs(storing, rec, DataKey(rec, storing.day)) && ListsKey(listing, day, DataKey(rec, storing.day))
  }

  // ----- one day -----

  predicate OnDay(calls: seq<Call>, day: nat) {
    forall i :: 0 <= i < |calls| ==> calls[i].day == day && calls[i].groupDay == day
  }

  /** Every metric lies in the one sorted set that its content names. */
  ghost predicate Homed(s: State, day: nat) {
    forall k, rec :: rec in SortedSet(s, k) ==> k == DataKey(rec, day)
  }

  lemma DayIsHomed(calls: seq<Call>, day: nat)
    requires OnDay(calls, day)
    ensures Homed(Exec(EMPTY, calls), day)
  {
    forall k, rec | rec in SortedSet(Exec(EMPTY, calls), k)
      ensures k == DataKey(rec, day)
    {
      StoredIff(calls, rec, k);
    }
  }

  lemma NoDupAppend(a: seq<Recorded>, b: seq<Recorded>)
    requires NoDup(a) && NoDup(b) && forall rec :: rec in a ==> rec !in b
    ensures NoDup(a + b)
  {
    forall i, j | 0 <= i < j < |a + b|
      ensures (a + b)[i] != (a + b)[j]
    {
      if i < |a| <= j {
        assert a[i] in a && b[j - |a|] in b;
      }
    }
  }

  lemma {:induction false} HomedListing(s: State, keys: set<string>, listing: seq<Recorded>, day: nat)
    requires Listing(s, keys, listing) && Homed(s, day)
    ensures NoDup(listing)
    decreases keys
  {
    if keys != {} {
      var k, n :| k in keys && 0 <= n <= |listing| && LastRange(s, keys, listing, k, n);
      HomedListing(s, keys - {k}, listing[..n], day);
      var a, b := listing[..n], listing[n..];
      forall rec | rec in a
        ensures rec !in b
      {
        ListingMembers(s, keys - {k}, a, rec);
        var l :| l in keys - {k} && rec in SortedSet(s, l);
        assert l != k && l == DataKey(rec, day);
      }
      assert listing == a + b;
      NoDupAppend(a, b);
    }
  }

  /** Within one day the listing has no metric twice, however often and with whatever failures it was recorded. */
  lemma ListedOnce(calls: seq<Call>, day: nat, listing: seq<Recorded>)
    requires OnDay(calls, day) && Complete(calls, day, listing)
    ensures NoDup(listing)
  {
    DayIsHomed(calls, day);
    HomedListing(Exec(EMPTY, calls), Members(Exec(EMPTY, calls), GroupKey(day)), listing, day);
  }

  /** Some call's group write listed the sorted set of a metric. */
  predicate KeyListed(calls: seq<Call>, day: nat, rec: Recorded) {
    exists j :: 0 <= j < |calls| && Applied(calls[j].sadd) && DataKey(calls[j].rec, day) == DataKey(rec, day)
  }

  /**
   A metric whose call stored it is listed exactly when the group write of some call with the same key came through:
   the answer of the call does not tell.
   */
  lemma SavedIsListedIff(calls: seq<Call>, day: nat, listing: seq<Recorded>, i: nat)
    requires OnDay(calls, day) && Complete(calls, day, listing)
    requires i < |calls| && Stores(calls[i])
    ensures calls[i].rec in listing <==> KeyListed(calls, day, calls[i].rec)
  {
    var rec := calls[i].rec;
    ListedMetrics(calls, day, listing, rec);
    if j :| 0 <= j < |calls| && Applied(calls[j].sadd) && DataKey(calls[j].rec, day) == DataKey(rec, day) {
      assert StoredAndListed(calls[i], calls[j], rec, day);
    }
  }

  /** A call that answers success and stores its metric, with a group write that fails: the metric is never listed. */
  lemma SavedButNeverListed(day: nat, rec: Recorded, listing: seq<Recorded>)
    requires Complete([Call(rec, day, day, 0, true, Done, Done, Refused, Done)], day, listing)
    ensures var c := Call(rec, day, day, 0, true, Done, Done, Refused, Done);
      Succeeds(c) && rec in SortedSet(Exec(EMPTY, [c]), DataKey(rec, day)) && rec !in listing
  {
    var calls := [Call(rec, day, day, 0, true, Done, Done, Refused, Done)];
    StoredIff(calls, rec, DataKey(rec, day));
    assert StoresAs(calls[0], rec, DataKey(rec, day));
    SavedIsListedIff(calls, day, listing, 0);
  }

  // ----- what the report then says -----

  function Elements<T(==)>(s: seq<T>): set<T> {
    set x | x in s
  }

  /** A sequence has as many different elements as positions exactly when nothing repeats. */
  lemma {:induction false} DistinctIff<T>(s: seq<T>)
    ensures |Elements(s)| <= |s|
    ensures |Elements(s)| == |s| <==> NoDup(s)
  {
    if s != [] {
      var init, last := s[..|s| - 1], s[|s| - 1];
      DistinctIff(init);
      assert s == init + [last];
      if last in init {
        assert Elements(s) == Elements(init);
        var i :| 0 <= i < |init| && init[i] == last;
        assert s[i] == s[|s| - 1];
      } else {
        assert Elements(s) == Elements(init) + {last};
        NoDupSnoc(init, last);
      }
    }
  }

  lemma NoDupSnoc<T>(init: seq<T>, last: T)
    requires last !in init
    ensures NoDup(init + [last]) <==> NoDup(init)
  {
    if NoDup(init + [last]) {
      assert forall i :: 0 <= i < |init| ==> (init + [last])[i] == init[i];
    }
  }

  /** The metrics of one side and acknowledgement. */
  function Matching(recs: set<Recorded>, side: Side, acks: set<bool>): set<Recorded> {
    set rec | rec in recs && OnSide(side, Decode(rec)) && rec.ack in acks
  }

  lemma MatchingGrows(recs: set<Recorded>, rec: Recorded, side: Side, acks: set<bool>)
    requires rec !in recs
    ensures |Matching(recs + {rec}, side, acks)|
        == |Matching(recs, side, acks)| + if OnSide(side, Decode(rec)) && rec.ack in acks then 1 else 0
  {
    if OnSide(side, Decode(rec)) && rec.ack in acks {
      assert Matching(recs + {rec}, side, acks) == Matching(recs, side, acks) + {rec};
    } else {
      assert Matching(recs + {rec}, side, acks) == Matching(recs, side, acks);
    }
  }

  lemma CountDecoded(init: seq<Recorded>, last: Recorded, side: Side, acks: set<bool>)
    ensures CountOn(DecodeAll(init + [last]), side, acks)
         == CountOn(DecodeAll(init), side, acks) + if OnSide(side, Decode(last)) && last.ack in acks then 1 else 0
  {
    assert DecodeAll(init + [last])[..|init|] == DecodeAll(init);
  }

  lemma {:induction false} CountIsMatching(listing: seq<Recorded>, side: Side, acks: set<bool>)
    requires NoDup(listing)
    ensures CountOn(DecodeAll(listing), side, acks) == |Matching(Elements(listing), side, acks)|
  {
    if listing == [] {
      assert Matching(Elements(listing), side, acks) == {};
    } else {
      var init, last := listing[..|listing| - 1], listing[|listing| - 1];
      assert listing == init + [last];
      CountIsMatching(init, side, acks);
      CountDecoded(init, last, side, acks);
      assert last !in Elements(init) && Elements(listing) == Elements(init) + {last};
      MatchingGrows(Elements(init), last, side, acks);
    }
  }

  function RecordedBy(calls: seq<Call>): seq<Recorded> {
    seq(|calls|, i requires 0 <= i < |calls| => calls[i].rec)
  }

  /** The metrics that some call stored and whose sorted set some call listed. */
  function Visible(calls: seq<Call>, day: nat): set<Recorded> {
    set i, j | 0 <= i < |calls| && 0 <= j < |calls|
        && StoredAndListed(calls[i], calls[j], calls[i].rec, day) :: calls[i].rec
  }

  /** A complete listing has exactly the visible metrics. */
  lemma ListingIsVisible(calls: seq<Call>, day: nat, listing: seq<Recorded>)
    requires Complete(calls, day, listing)
    ensures Elements(listing) == Visible(calls, day)
  {
    forall rec
      ensures rec in listing <==> rec in Visible(calls, day)
    {
      ListedMetrics(calls, day, listing, rec);
      if i, j :| 0 <= i < |calls| && 0 <= j < |calls| && StoredAndListed(calls[i], calls[j], rec, day) {
        assert StoredAndListed(calls[i], calls[j], calls[i].rec, day);
      }
    }
  }

  /**
   Record, list, report, with any failures on the way: every count of the report is the number of different
   metrics of that side that were stored and listed.
   */
  lemma ReportMatchesRecorded(calls: seq<Call>, day: nat, listing: seq<Recorded>, r: Insights)
    requires OnDay(calls, day) && Complete(calls, day, listing) && Reports(r, DecodeAll(listing))
    ensures var recs := Visible(calls, day);
      && r.consumed == Totals(|Matching(recs, Consumers, {true, false})|, |Matching(recs, Consumers, {true})|,
           |Matching(recs, Consumers, {false})|)
      && r.published == Totals(|Matching(recs, Publishers, {true, false})|, |Matching(recs, Publishers, {true})|,
           |Matching(recs, Publishers, {false})|)
  {
    ListedOnce(calls, day, listing);
    ListingIsVisible(calls, day, listing);
    forall side, acks {
      CountIsMatching(listing, side, acks);
    }
  }

  /** The call's metric was stored by it, and its sorted set listed by some call. */
  predicate Counted(calls: seq<Call>, day: nat, c: Call) {
    Stores(c) && KeyListed(calls, day, c.rec)
  }

  lemma VisibleIsRecorded(calls: seq<Call>, day: nat)
    ensures Visible(calls, day) <= Elements(RecordedBy(calls))
  {
    forall rec | rec in Visible(calls, day)
      ensures rec in RecordedBy(calls)
    {
      var i, j :| 0 <= i < |calls| && 0 <= j < |calls|
        && StoredAndListed(calls[i], calls[j], calls[i].rec, day) && calls[i].rec == rec;
      assert RecordedBy(calls)[i] == rec;
    }
  }

  predicate AllCounted(calls: seq<Call>, day: nat) {
    forall i :: 0 <= i < |calls| ==> Counted(calls, day, calls[i])
  }

  lemma EachIsVisible(calls: seq<Call>, day: nat, i: nat)
    requires OnDay(calls, day) && i < |calls| && AllCounted(calls, day)
    ensures RecordedBy(calls)[i] in Visible(calls, day)
  {
    CountedIsVisible(calls, day, i);
  }

  lemma AllIn<T>(s: seq<T>, all: set<T>)
    requires forall i :: 0 <= i < |s| ==> s[i] in all
    ensures Elements(s) <= all
  {
  }

  lemma AllCountedIsVisible(calls: seq<Call>, day: nat)
    requires OnDay(calls, day) && AllCounted(calls, day)
    ensures Elements(RecordedBy(calls)) <= Visible(calls, day)
  {
    var recs, visible := RecordedBy(calls), Visible(calls, day);
    forall i | 0 <= i < |recs|
      ensures recs[i] in visible
    {
      EachIsVisible(calls, day, i);
    }
    AllIn(recs, visible);
  }

  lemma AllVisibleIsCounted(calls: seq<Call>, day: nat)
    requires OnDay(calls, day) && NoDup(RecordedBy(calls)) && Elements(RecordedBy(calls)) <= Visible(calls, day)
    ensures AllCounted(calls, day)
  {
    forall i | 0 <= i < |calls|
      ensures Counted(calls, day, calls[i])
    {
      assert RecordedBy(calls)[i] in Elements(RecordedBy(calls));
      VisibleIsCounted(calls, day, i);
    }
  }

  lemma CountedIsVisible(calls: seq<Call>, day: nat, i: nat)
    requires OnDay(calls, day) && i < |calls| && Counted(calls, day, calls[i])
    ensures calls[i].rec in Visible(calls, day)
  {
    var j :| 0 <= j < |calls| && Applied(calls[j].sadd) && DataKey(calls[j].rec, day) == DataKey(calls[i].rec, day);
    assert StoredAndListed(calls[i], calls[j], calls[i].rec, day);
  }

  lemma VisibleIsCounted(calls: seq<Call>, day: nat, i: nat)
    requires OnDay(calls, day) && i < |calls| && NoDup(RecordedBy(calls)) && calls[i].rec in Visible(calls, day)
    ensures Counted(calls, day, calls[i])
  {
    var recs := RecordedBy(calls);
    var m, j :| 0 <= m < |calls| && 0 <= j < |calls| && StoredAndListed(calls[m], calls[j], calls[m].rec, day)
        && calls[m].rec == calls[i].rec;
    assert recs[m] == recs[i];
    SameGroup(calls, day, j);
  }

  /** On one day a call lists its own key for that day exactly when its group write was applied. */
  lemma SameGroup(calls: seq<Call>, day: nat, j: nat)
    requires OnDay(calls, day) && j < |calls|
    ensures forall k :: ListsKey(calls[j], day, k) <==> Applied(calls[j].sadd) && DataKey(calls[j].rec, day) == k
  {
  }

  /**
   The report counts every call exactly when no two calls recorded the same metric and every call's metric
   was stored and its key listed.
   */
  lemma EveryCallCountedIff(calls: seq<Call>, day: nat, listing: seq<Recorded>, r: Insights)
    requires OnDay(calls, day) && Complete(calls, day, listing) && Reports(r, DecodeAll(listing))
    ensures r.consumed.total + r.published.total == |calls|
       <==> NoDup(RecordedBy(calls)) && AllCounted(calls, day)
  {
    ListedOnce(calls, day, listing);
    ListingIsVisible(calls, day, listing);
    ReportAddsUp(r, DecodeAll(listing));
    DistinctIff(listing);
    DistinctIff(RecordedBy(calls));
    VisibleIsRecorded(calls, day);
    SameSizeIff(Visible(calls, day), Elements(RecordedBy(calls)));
    if AllCounted(calls, day) {
      AllCountedIsVisible(calls, day);
    }
    if NoDup(RecordedBy(calls)) && Visible(calls, day) == Elements(RecordedBy(calls)) {
      AllVisibleIsCounted(calls, day);
    }
  }

  /** A call on day 1 without any failure. */
  function GoodCall(rec: Recorded): Call {
    Call(rec, 1, 1, 0, true, Done, Done, Done, Done)
  }

  lemma VisibleOnce(rec: Recorded)
    ensures Visible([GoodCall(rec), GoodCall(rec)], 1) == {rec}
  {
    var calls := [GoodCall(rec), GoodCall(rec)];
    assert StoredAndListed(calls[0], calls[0], calls[0].rec, 1);
    assert forall i :: 0 <= i < |calls| ==> calls[i].rec == rec;
  }

  /** The same metric recorded twice, without any failure, is counted once. */
  lemma RecordedTwiceCountedOnce(rec: Recorded, listing: seq<Recorded>, r: Insights)
    requires Complete([GoodCall(rec), GoodCall(rec)], 1, listing) && Reports(r, DecodeAll(listing))
    ensures Succeeds(GoodCall(rec)) && r.consumed.total + r.published.total == 1
  {
    var calls := [GoodCall(rec), GoodCall(rec)];
    ListedOnce(calls, 1, listing);
    ListingIsVisible(calls, 1, listing);
    VisibleOnce(rec);
    ReportAddsUp(r, DecodeAll(listing));
    DistinctIff(listing);
  }

  predicate FromConsumer(rec: Recorded) {
    rec.ConsumedMetric?
  }

  function Deliveries(recs: seq<Recorded>): set<Recorded> {
    set rec | rec in recs && FromConsumer(rec)
  }

  lemma SameSizeIff<T>(a: set<T>, b: set<T>)
    requires a <= b
    ensures |a| <= |b| && (|a| == |b| <==> a == b)
  {
    assert b == a + (b - a);
  }

  lemma VisibleDeliveries(visible: set<Recorded>, recs: seq<Recorded>)
    requires visible <= Elements(recs)
    ensures |Matching(visible, Consumers, {true, false})| == |Deliveries(recs)|
       <==> forall rec :: rec in Deliveries(recs) ==> rec.consumerName != "" && rec in visible
  {
    var counted, all := Matching(visible, Consumers, {true, false}), Deliveries(recs);
    assert counted == set rec | rec in all && rec.consumerName != "" && rec in visible;
    SameSizeIff(counted, all);
    assert counted == all <==> forall rec :: rec in all ==> rec in counted;
  }

  /**
   The consumer total is the number of different deliveries recorded exactly when each of them names its
   consumer, was stored by some call, and has its key listed by some call.
   */
  lemma ConsumersCountedIff(calls: seq<Call>, day: nat, listing: seq<Recorded>, r: Insights)
    requires OnDay(calls, day) && Complete(calls, day, listing) && Reports(r, DecodeAll(listing))
    ensures r.consumed.total == |Deliveries(RecordedBy(calls))|
       <==> forall rec :: rec in Deliveries(RecordedBy(calls)) ==> rec.consumerName != "" && rec in Visible(calls, day)
  {
    ReportMatchesRecorded(calls, day, listing, r);
    VisibleIsRecorded(calls, day);
    VisibleDeliveries(Visible(calls, day), RecordedBy(calls));
  }
}
