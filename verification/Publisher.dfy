/** The fan-out of the HTTP publisher (`internal/app/pubsubapp/publisher_handle_http.go`). */
module Publisher {
  import opened Domain
  import opened Prelude
  import opened PubSub
  import Protocol
  import Strconv
  import TopicUtils

  /** A decoded body; `data` is absent when the body has none. */
  datatype InternalPayload = InternalPayload(eventName: string, data: Option<string>, headers: Attributes)

  datatype Lookup = EventFound(event: Event) | EventMissing | LookupFailed

  /** The broker's answer and the clock reading for each consumer in turn. */
  datatype World = World(results: nat -> PublishResult, clock: nat -> int)

  function RequestFor(event: Event, payload: InternalPayload, data: string, i: nat, now: int): Request
    requires i < |event.consumers|
  {
    Request(event.name, event.consumers[i], data, payload.headers, now)
  }

  function Requests(event: Event, payload: InternalPayload, data: string, w: World): seq<Request> {
    seq(|event.consumers|, i requires 0 <= i < |event.consumers| => RequestFor(event, payload, data, i, w.clock(i)))
  }

  /** The messages stored for requests published one after another. */
  function FreshMessages(topic: string, id: nat, requests: seq<Request>): seq<Message> {
    seq(|requests|, i requires 0 <= i < |requests| =>
      Message(id + i, Req(requests[i]), Protocol.InitialAttributes(topic, 1)))
  }

  /** The first publication not confirmed, or n. */
  function FirstFailure(w: World, n: nat): (k: nat)
    ensures k <= n
    ensures forall i :: 0 <= i < k ==> w.results(i) == Confirmed
    ensures k < n ==> w.results(k) != Confirmed
  {
    if n == 0 then 0
    else if FirstFailure(w, n - 1) < n - 1 then FirstFailure(w, n - 1)
    else if w.results(n - 1) == Confirmed then n
    else n - 1
  }

  /** How many messages a fan-out over n consumers stores. */
  function StoredCount(w: World, n: nat): (k: nat)
    ensures k <= n
  {
    var k := FirstFailure(w, n);
    if k < n && w.results(k) == Unconfirmed then k + 1 else k
  }

  /**
   The handler of `POST /api/v1/pubsub`. A body that is accepted for a known event publishes one
   request per consumer, in order, and stops at the first publication that is not confirmed.
   */
  method PublishEvent(b: Broker, body: Option<InternalPayload>, lookup: Lookup, w: World) returns (status: nat)
    modifies b
    ensures status in {201, 400, 404, 500}
    ensures status == 400 <==> body.None? || body.value.eventName == "" || body.value.data.None?
    ensures status == 404 <==> status != 400 && lookup == EventMissing
    ensures status == 201 <==>
      && status != 400 && lookup.EventFound?
      && FirstFailure(w, |lookup.event.consumers|) == |lookup.event.consumers|
    ensures status == 400 || !lookup.EventFound? ==> b.topics == old(b.topics) && b.nextId == old(b.nextId)
    ensures status != 400 && lookup.EventFound? ==>
      var requests := Requests(lookup.event, body.value, body.value.data.value, w);
      var k := StoredCount(w, |requests|);
      && b.nextId == old(b.nextId) + k
      && Grown(old(b.topics), b.topics, RequestTopic(), FreshMessages(RequestTopic(), old(b.nextId), requests)[..k])
    ensures status != 400 && lookup.EventFound? ==>
      var k := StoredCount(w, |lookup.event.consumers|);
      var queue, before := Queue(b.topics, RequestTopic()), Queue(old(b.topics), RequestTopic());
      && |queue| == |before| + k && queue[..|before|] == before
      && forall i :: 0 <= i < k ==>
           var m, e := queue[|before| + i], lookup.event;
           && m.id == old(b.nextId) + i && m.data.Req?
           && m.data.request.eventName == e.name && m.data.request.consumer == e.consumers[i]
           && m.data.request.data == body.value.data.value && m.data.request.headers == body.value.headers
           && m.data.request.publishedAt == w.clock(i)
           && m.attributes == map["topic" := RequestTopic(), "max_retries" := "1"]
  {
    if body.None? || body.value.eventName == "" || body.value.data.None? {
      return 400;
    }
    if lookup.EventMissing? {
      return 404;
    }
    if lookup.LookupFailed? {
      return 500;
    }
    var topic := TopicUtils.BuildTopicName(PROJECT_ID, REQUEST_QUEUE);
    var ok := FanOut(b, topic, lookup.event, body.value, body.value.data.value, w);
    StoredMessages(old(b.topics), b.topics, topic, old(b.nextId), lookup.event, body.value, body.value.data.value, w);
    return if ok then 201 else 500;
  }

  /** Message i of a fan-out is addressed to consumer i, under the next id, with the body's data and headers. */
  lemma FreshMessageAt(topic: string, id: nat, event: Event, payload: InternalPayload, data: string, w: World, i: nat)
    requires i < |event.consumers|
    ensures var m := FreshMessages(topic, id, Requests(event, payload, data, w))[i];
      && m.id == id + i && m.data.Req?
      && m.data.request.eventName == event.name && m.data.request.consumer == event.consumers[i]
      && m.data.request.data == data && m.data.request.headers == payload.headers
      && m.data.request.publishedAt == w.clock(i)
      && m.attributes == map["topic" := topic, "max_retries" := "1"]
  {
    OneRetry(topic);
    var requests := Requests(event, payload, data, w);
    assert requests[i] == RequestFor(event, payload, data, i, w.clock(i));
    assert FreshMessages(topic, id, requests)[i].data == Req(requests[i]);
  }

  /** The same, of the messages that a fan-out added to its queue. */
  lemma StoredMessages(before: Topics, after: Topics, topic: string, id: nat,
                       event: Event, payload: InternalPayload, data: string, w: World)
    requires var k := StoredCount(w, |event.consumers|);
      Grown(before, after, topic, FreshMessages(topic, id, Requests(event, payload, data, w))[..k])
    ensures var k := StoredCount(w, |event.consumers|);
      var n := |Queue(before, topic)|;
      && |Queue(after, topic)| == n + k && Queue(after, topic)[..n] == Queue(before, topic)
      && forall i :: 0 <= i < k ==>
           var m := Queue(after, topic)[n + i];
           && m.id == id + i && m.data.Req?
           && m.data.request.eventName == event.name && m.data.request.consumer == event.consumers[i]
           && m.data.request.data == data && m.data.request.headers == payload.headers
           && m.data.request.publishedAt == w.clock(i)
           && m.attributes == map["topic" := topic, "max_retries" := "1"]
  {
    var k, n := StoredCount(w, |event.consumers|), |Queue(before, topic)|;
    var messages := FreshMessages(topic, id, Requests(event, payload, data, w));
    forall i | 0 <= i < k
      ensures Queue(after, topic)[n + i] == messages[i]
    {
      assert messages[..k][i] == messages[i];
    }
    forall i | 0 <= i < k {
      FreshMessageAt(topic, id, event, payload, data, w, i);
    }
  }

  /** One publication with the attributes of a first attempt. */
  method PublishOne(b: Broker, topic: string, input: Request, result: PublishResult) returns (ok: bool)
    modifies b
    ensures ok <==> result == Confirmed
    ensures b.nextId == AfterAttempt(old(b.nextId), result)
    ensures b.topics == if result == Refused then old(b.topics)
                        else Enqueue(old(b.topics), topic,
                            Message(old(b.nextId), Req(input), Protocol.InitialAttributes(topic, 1)))
  {
    var attributes := map["topic" := topic, "max_retries" := "1"];
    assert "topic" in attributes;
    OneRetry(topic);
    ok := b.Publish(topic, Req(input), attributes, result);
  }

  /** The consumer loop: one publication per consumer, stopping at the first that is not confirmed. */
  method FanOut(b: Broker, topic: string, event: Event, payload: InternalPayload, data: string, w: World)
      returns (ok: bool)
    modifies b
    ensures ok <==> FirstFailure(w, |event.consumers|) == |event.consumers|
    ensures var k := StoredCount(w, |event.consumers|);
      && b.nextId == old(b.nextId) + k
      && Grown(old(b.topics), b.topics, topic,
           FreshMessages(topic, old(b.nextId), Requests(event, payload, data, w))[..k])
  {
    ghost var messages := FreshMessages(topic, b.nextId, Requests(event, payload, data, w));
    for i := 0 to |event.consumers|
      invariant forall j :: 0 <= j < i ==> w.results(j) == Confirmed
      invariant b.nextId == old(b.nextId) + i
      invariant Grown(old(b.topics), b.topics, topic, messages[..i])
    {
      var input := RequestFor(event, payload, data, i, w.clock(i));
      ghost var before := b.topics;
      var confirmed := PublishOne(b, topic, input, w.results(i));
      assert messages[i] == Message(old(b.nextId) + i, Req(input), Protocol.InitialAttributes(topic, 1));
      GrowsBy(old(b.topics), before, b.topics, topic, messages, i, w.results(i));
      if !confirmed {
        FailureAt(w, |event.consumers|, i);
        return false;
      }
    }
    return true;
  }

  /** The queue of one topic was extended and no other queue changed. */
  ghost predicate Grown(before: Topics, after: Topics, topic: string, extra: seq<Message>) {
    && Queue(after, topic) == Queue(before, topic) + extra
    && (forall t :: t != topic ==> Queue(after, t) == Queue(before, t))
  }

  /** Messages stored after attempt i, when the i attempts before stored one each. */
  function AfterAttempt(i: nat, result: PublishResult): nat {
    if result == Refused then i else i + 1
  }

  lemma GrowsBy(first: Topics, before: Topics, after: Topics, topic: string, messages: seq<Message>, i: nat,
                result: PublishResult)
    requires i < |messages| && Grown(first, before, topic, messages[..i])
    requires after == if result == Refused then before else Enqueue(before, topic, messages[i])
    ensures Grown(first, after, topic, messages[..AfterAttempt(i, result)])
  {
    assert messages[..i + 1] == messages[..i] + [messages[i]];
  }

  lemma FailureAt(w: World, n: nat, i: nat)
    requires i < n && w.results(i) != Confirmed && forall j :: 0 <= j < i ==> w.results(j) == Confirmed
    ensures FirstFailure(w, n) == i && StoredCount(w, n) == AfterAttempt(i, w.results(i))
  {
  }

  lemma OneRetry(topic: string)
    ensures Protocol.InitialAttributes(topic, 1) == map["topic" := topic, "max_retries" := "1"]
  {
    assert Strconv.FormatInt(1) == "1";
  }

  /** Publish steps of the protocol, one per stored request. */
  function Steps(requests: seq<Request>, results: seq<PublishResult>): seq<Protocol.Step>
    requires |requests| == |results|
  {
    seq(|requests|, i requires 0 <= i < |requests| => Protocol.Publish(requests[i], 1, results[i]))
  }

  /** What a fan-out stores is what the corresponding publish steps of the protocol store. */
  lemma {:induction false} FanOutIsRun(s: Protocol.System, requests: seq<Request>, results: seq<PublishResult>)
    requires |requests| == |results| && Refused !in results
    ensures var s' := Protocol.Exec(s, Steps(requests, results));
      && s'.nextId == s.nextId + |requests|
      && Grown(s.copies.topics, s'.copies.topics, s.names.request, FreshMessages(s.names.request, s.nextId, requests))
    decreases |requests|
  {
    if requests != [] {
      var m, s1 := Protocol.Fresh(s, requests[0], 1), Published(s, requests[0], results[0]);
      FanOutIsRun(s1, requests[1..], results[1..]);
      FirstStep(s, requests, results);
      var rest := FreshMessages(s.names.request, s.nextId + 1, requests[1..]);
      GrowsFirst(s.copies.topics, Protocol.Exec(s, Steps(requests, results)).copies.topics, s.names.request, m, rest);
      assert FreshMessages(s.names.request, s.nextId, requests) == [m] + rest;
    }
  }

  /** The protocol's state after one stored publication. */
  function Published(s: Protocol.System, request: Request, result: PublishResult): (s1: Protocol.System)
    requires result != Refused
    ensures s1.names == s.names && s1.nextId == s.nextId + 1
    ensures s1.copies.topics == Enqueue(s.copies.topics, s.names.request, Protocol.Fresh(s, request, 1))
  {
    Protocol.Next(s, Protocol.Publish(request, 1, result))
  }

  lemma FirstStep(s: Protocol.System, requests: seq<Request>, results: seq<PublishResult>)
    requires |requests| == |results| && requests != [] && results[0] != Refused
    ensures Protocol.Exec(s, Steps(requests, results))
         == Protocol.Exec(Published(s, requests[0], results[0]), Steps(requests[1..], results[1..]))
  {
    assert Steps(requests, results)[1..] == Steps(requests[1..], results[1..]);
  }

  lemma GrowsFirst(before: Topics, after: Topics, topic: string, m: Message, rest: seq<Message>)
    requires Grown(Enqueue(before, topic, m), after, topic, rest)
    ensures Grown(before, after, topic, [m] + rest)
  {
    assert Queue(before, topic) + [m] + rest == Queue(before, topic) + ([m] + rest);
  }
}
