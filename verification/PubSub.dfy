/**
 Messages, the Pub/Sub publisher and the settling handler
 (`pkg/pubadapter/pub_sub_google.go`, `pkg/asyncadapter/gbubsub_adapter.go`).

 Two facts about the Pub/Sub client are taken as given: only the first Ack or Nack of a
 delivery has an effect, and a Nack makes the broker offer its own copy again, without
 the attribute edits made by the handler.
 */
module PubSub {
  import opened Domain
  import opened Prelude
  import Strconv
  import TopicUtils

  const PROJECT_ID := "your-project-id"
  const REQUEST_QUEUE := "event-queue.request-to-external"
  const DEAD_LETTER_QUEUE := "event-queue.dead-letter"

  type Attributes = map<string, string>

  /** What the HTTP publisher sends for one consumer; the JSON text of `data` is kept as a string. */
  datatype Request = Request(eventName: string, consumer: Consumer, data: string, headers: Attributes, publishedAt: int)

  /** Marshalled bytes: either a request, or a whole message that was published again. */
  datatype Payload = Req(request: Request) | Env(message: Message)

  datatype Message = Message(id: nat, data: Payload, attributes: Attributes)

  /** `Unconfirmed`: the broker stored the message, but the publisher was told that it failed. */
  datatype PublishResult = Confirmed | Refused | Unconfirmed

  datatype Settlement = Unsettled | Acked | Nacked

  type Topics = map<string, seq<Message>>

  function Queue(topics: Topics, topic: string): seq<Message> {
    if topic in topics then topics[topic] else []
  }

  function Enqueue(topics: Topics, topic: string, message: Message): Topics {
    topics[topic := Queue(topics, topic) + [message]]
  }

  /** The two topics a deployment subscribes to. */
  datatype Names = Names(request: string, deadLetter: string)

  function RequestTopic(): string {
    TopicUtils.BuildTopicName(PROJECT_ID, REQUEST_QUEUE)
  }

  function DeadLetterTopic(): string {
    TopicUtils.BuildTopicName(PROJECT_ID, DEAD_LETTER_QUEUE)
  }

  lemma QueueNamesAreDotted()
    ensures REQUEST_QUEUE == "event-queue" + "." + "request-to-external"
    ensures DEAD_LETTER_QUEUE == "event-queue" + "." + "dead-letter"
  {
  }

  lemma QueueTopicName(queue: string, q: string, word: string)
    requires queue == q + "." + word && TopicUtils.Tidy(q) && TopicUtils.Tidy(word)
    requires 0 < |q| <= 20 && 0 < |word| <= 20
    ensures TopicUtils.BuildTopicName(PROJECT_ID, queue) == PROJECT_ID + "-" + q + "-" + word
  {
    ProjectIsCanonical();
    TopicUtils.DottedTopicName(PROJECT_ID, q, word);
  }

  lemma TopicNames()
    ensures RequestTopic() == "your-project-id" + "-" + "event-queue" + "-" + "request-to-external"
    ensures DeadLetterTopic() == "your-project-id" + "-" + "event-queue" + "-" + "dead-letter"
    ensures RequestTopic() != DeadLetterTopic()
  {
    QueueNamesAreDotted();
    QueueWordsAreTidy();
    QueueTopicName(REQUEST_QUEUE, "event-queue", "request-to-external");
    QueueTopicName(DEAD_LETTER_QUEUE, "event-queue", "dead-letter");
    assert |RequestTopic()| == |PROJECT_ID| + 32 && |DeadLetterTopic()| == |PROJECT_ID| + 24;
  }

  lemma ProjectIsCanonical()
    ensures TopicUtils.Canonical(PROJECT_ID)
  {
  }

  lemma QueueWordsAreTidy()
    ensures TopicUtils.Tidy("event-queue")
    ensures TopicUtils.Tidy("request-to-external")
    ensures TopicUtils.Tidy("dead-letter")
  {
  }

  // ----- publishing -----

  /** Attributes a message is stored with: defaults when the caller gave none. */
  function StoredAttributes(topic: string, attributes: Attributes): Attributes {
    if attributes == map[] then map["max_retries" := "1", "topic" := topic] else attributes
  }

  /** The broker seen through its publisher. */
  class Broker {
    var topics: Topics
    var nextId: nat

    constructor ()
      ensures topics == map[] && nextId == 0
    {
      topics, nextId := map[], 0;
    }

    /** `PubSubGoogle.Publish`: `payload` stands for the marshalled bytes, `result` for what the broker does. */
    method Publish(topic: string, payload: Payload, attributes: Attributes, result: PublishResult) returns (ok: bool)
      modifies this
      ensures ok <==> result == Confirmed
      ensures result == Refused ==> topics == old(topics) && nextId == old(nextId)
      ensures result != Refused ==>
        && topics == Enqueue(old(topics), topic, Message(old(nextId), payload, StoredAttributes(topic, attributes)))
        && nextId == old(nextId) + 1
      ensures result != Refused ==>
        var queue, before := Queue(topics, topic), Queue(old(topics), topic);
        && |queue| == |before| + 1 && queue[..|before|] == before
        && queue[|before|].id == old(nextId) && queue[|before|].data == payload
        && queue[|before|].attributes
           == (if attributes == map[] then map["max_retries" := "1", "topic" := topic] else attributes)
      ensures forall t :: t != topic ==> Queue(topics, t) == Queue(old(topics), t)
    {
      var stored := attributes;
      if |attributes| == 0 {
        stored := map["max_retries" := "1", "topic" := topic];
      }
      if result != Refused {
        topics := Enqueue(topics, topic, Message(nextId, payload, stored));
        nextId := nextId + 1;
      }
      ok := result == Confirmed;
    }
  }

  // ----- one delivery -----

  /** A message handed to a handler: a private copy whose attributes the handler may edit. */
  class Delivery {
    const message: Message
    var attributes: Attributes
    var settled: Settlement

    constructor (message: Message)
      ensures this.message == message && attributes == message.attributes && settled == Unsettled
    {
      this.message := message;
      attributes, settled := message.attributes, Unsettled;
    }

    method Ack()
      modifies this`settled
      ensures settled == if old(settled) == Unsettled then Acked else old(settled)
    {
      if settled == Unsettled {
        settled := Acked;
      }
    }

    method Nack()
      modifies this`settled
      ensures settled == if old(settled) == Unsettled then Nacked else old(settled)
    {
      if settled == Unsettled {
        settled := Nacked;
      }
    }

    /** The Go value that is marshalled when the delivery itself is published. */
    function Local(): Message
      reads this`attributes
    {
      Message(message.id, message.data, attributes)
    }
  }

  /** What the surroundings do during one delivery. */
  datatype World = World(cancelled: bool, publish: PublishResult)

  datatype Send = Send(topic: string, payload: Payload, attributes: Attributes)

  /** Outcome of one delivery: how it was settled, what reached the broker, whether the handler panicked. */
  datatype Effect = Effect(settled: Settlement, sent: Option<Send>, attributes: Attributes, panicked: bool)

  function Attribute(attributes: Attributes, key: string, default: string): string {
    if key in attributes then attributes[key] else default
  }

  /** Publishing the local message and settling by what the publisher was told. */
  function Republish(m: Message, topic: string, result: PublishResult): Effect {
    Effect(if result == Confirmed then Acked else Nacked,
           if result == Refused then None else Some(Send(topic, Env(m), StoredAttributes(topic, m.attributes))),
           m.attributes, false)
  }

  /** The part of `retryable` after both counters were read. */
  function RetryCounted(m: Message, count: int, max: int, world: World, deadLetter: string): Effect {
    if count >= max then Republish(m, deadLetter, world.publish)
    else
      var counted := m.(attributes := m.attributes["retry_count" := Strconv.FormatInt(count + 1)]);
      if world.cancelled then Effect(Acked, None, counted.attributes, false)
      else Republish(counted, Attribute(m.attributes, "topic", ""), world.publish)
  }

  /** `retryable` as a value; `deadLetter` is the topic archived messages go to. */
  function Retry(m: Message, world: World, deadLetter: string): Effect {
    match (Strconv.ParseInt(Attribute(m.attributes, "retry_count", "0")),
           Strconv.ParseInt(Attribute(m.attributes, "max_retries", "")))
    case (Some(count), Some(max)) => RetryCounted(m, count, max, world, deadLetter)
    case _ => Effect(Acked, None, m.attributes, true)
  }

  /** One delivery as a value: `failure` is the error returned by the topic's own handler. */
  function Deliver(m: Message, failure: Option<string>, world: World, deadLetter: string): Effect {
    match failure
    case None => Effect(Acked, None, m.attributes, false)
    case Some(error) =>
      if m.attributes == map[] then Effect(Nacked, None, map[], true)
      else Retry(m.(attributes := m.attributes["msg" := error]), world, deadLetter)
  }

  /** The broker's topics and id counter after an effect. */
  function Stored(topics: Topics, nextId: nat, e: Effect): (Topics, nat) {
    match e.sent
    case None => (topics, nextId)
    case Some(s) => (Enqueue(topics, s.topic, Message(nextId, s.payload, s.attributes)), nextId + 1)
  }

  /** Publishes the local message and answers Nack when the publisher reports a failure. */
  method PublishOrNack(d: Delivery, b: Broker, topic: string, publish: PublishResult)
    requires d.settled == Unsettled
    modifies d`settled, b
    ensures d.settled == if publish == Confirmed then Unsettled else Nacked
    ensures (b.topics, b.nextId) == Stored(old(b.topics), old(b.nextId), Republish(d.Local(), topic, publish))
  {
    var ok := b.Publish(topic, Env(d.Local()), d.attributes, publish);
    if !ok {
      d.Nack();
    }
  }

  /** `archivedMsg`. */
  method ArchiveMessage(d: Delivery, b: Broker, publish: PublishResult)
    requires d.settled == Unsettled
    modifies d`settled, b
    ensures var e := Republish(d.Local(), DeadLetterTopic(), publish);
      d.settled == e.settled && (b.topics, b.nextId) == Stored(old(b.topics), old(b.nextId), e)
  {
    var topic := TopicUtils.BuildTopicName(PROJECT_ID, DEAD_LETTER_QUEUE);
    PublishOrNack(d, b, topic, publish);
    d.Ack(); // deferred
  }

  /** Archives the message, or counts the attempt, waits, and publishes it again. */
  method RetryOrArchive(d: Delivery, b: Broker, count: int, max: int, world: World)
    requires d.settled == Unsettled
    modifies d, b
    ensures var e := RetryCounted(old(d.Local()), count, max, world, DeadLetterTopic());
      && d.settled == e.settled && d.attributes == e.attributes
      && (b.topics, b.nextId) == Stored(old(b.topics), old(b.nextId), e)
  {
    var topic := Attribute(d.attributes, "topic", "");
    if count >= max {
      ArchiveMessage(d, b, world.publish);
      d.Ack(); // deferred
      return;
    }

    d.attributes := d.attributes["retry_count" := Strconv.FormatInt(count + 1)];
    if !world.cancelled {
      PublishOrNack(d, b, topic, world.publish);
    }
    d.Ack(); // deferred
  }

  /** `retryable`; the result says whether a counter failed to parse, which panics in the source. */
  method RetryMessage(d: Delivery, b: Broker, world: World) returns (panicked: bool)
    requires d.settled == Unsettled
    modifies d, b
    ensures var e := Retry(old(d.Local()), world, DeadLetterTopic());
      && d.settled == e.settled && d.attributes == e.attributes && panicked == e.panicked
      && (b.topics, b.nextId) == Stored(old(b.topics), old(b.nextId), e)
  {
    var retryCount := Strconv.ParseInt(Attribute(d.attributes, "retry_count", "0"));
    var maxRetryAttempts := Strconv.ParseInt(Attribute(d.attributes, "max_retries", ""));
    if retryCount == None || maxRetryAttempts == None {
      d.Ack(); // deferred, runs before the panic leaves the handler
      return true;
    }
    RetryOrArchive(d, b, retryCount.value, maxRetryAttempts.value, world);
    return false;
  }

  /** The subscriber callback built by `ToGPubSubHandler`. */
  method HandleDelivery(d: Delivery, b: Broker, failure: Option<string>, world: World) returns (panicked: bool)
    requires d.settled == Unsettled && d.attributes == d.message.attributes
    modifies d, b
    ensures var e := Deliver(d.message, failure, world, DeadLetterTopic());
      && d.settled == e.settled && d.attributes == e.attributes && panicked == e.panicked
      && (b.topics, b.nextId) == Stored(old(b.topics), old(b.nextId), e)
  {
    if failure.Some? {
      if |d.attributes| == 0 {
        d.Nack(); // the attribute map is nil: the write panics and only the outer deferred Nack runs
        return true;
      }
      d.attributes := d.attributes["msg" := failure.value];
      panicked := RetryMessage(d, b, world);
    } else {
      d.Ack();
      panicked := false;
    }
    d.Nack(); // deferred
  }

  // ----- what a delivery amounts to, for any message -----

  /**
   The outcome of a delivery by what its counters say: done, panicked, archived, dropped or republished, and
   settled by what the publisher was told.
   */
  lemma DeliveryOutcome(m: Message, failure: Option<string>, world: World, deadLetter: string)
    ensures var e := Deliver(m, failure, world, deadLetter);
      var count := Strconv.ParseInt(if "retry_count" in m.attributes then m.attributes["retry_count"] else "0");
      var max := Strconv.ParseInt(if "max_retries" in m.attributes then m.attributes["max_retries"] else "");
      var home := if "topic" in m.attributes then m.attributes["topic"] else "";
      if failure == None then e.settled == Acked && e.sent == None && !e.panicked
      else if m.attributes == map[] then e.settled == Nacked && e.sent == None && e.panicked
      else if count == None || max == None then e.settled == Acked && e.sent == None && e.panicked
      else if count.value < max.value && world.cancelled then e.settled == Acked && e.sent == None && !e.panicked
      else
        && e.settled == (if world.publish == Confirmed then Acked else Nacked)
        && (e.sent.Some? <==> world.publish != Refused) && !e.panicked
        && (e.sent.Some? ==> e.sent.value.topic == if count.value < max.value then home else deadLetter)
  {
    match failure
    case None =>
    case Some(error) => MarkedLookups(m.attributes, error);
  }

  /** Noting the error leaves the look-ups of the retry rules alone. */
  lemma MarkedLookups(attributes: Attributes, error: string)
    ensures var marked := attributes["msg" := error];
      && marked != map[]
      && Attribute(marked, "retry_count", "0") == Attribute(attributes, "retry_count", "0")
      && Attribute(marked, "max_retries", "") == Attribute(attributes, "max_retries", "")
      && Attribute(marked, "topic", "") == Attribute(attributes, "topic", "")
  {
    assert "msg" in attributes["msg" := error];
  }

  /**
   What a failed delivery sends: the whole message as it stands, with the error noted, the counter raised by one
   on a retry and left alone on the way to the dead-letter topic, and every other attribute as it was.
   */
  lemma FailedDeliverySends(m: Message, error: string, world: World, deadLetter: string)
    requires m.attributes != map[]
    ensures var e := Deliver(m, Some(error), world, deadLetter);
      e.sent.Some? ==>
        var a := e.sent.value.attributes;
        && "msg" in a && a["msg"] == error
        && (forall k :: k != "msg" && k != "retry_count" ==>
              (k in a <==> k in m.attributes) && (k in a ==> a[k] == m.attributes[k]))
        && e.sent.value.payload == Env(Message(m.id, m.data, a))
  {
    MarkedLookups(m.attributes, error);
    var marked := m.(attributes := m.attributes["msg" := error]);
    match (Strconv.ParseInt(Attribute(marked.attributes, "retry_count", "0")),
           Strconv.ParseInt(Attribute(marked.attributes, "max_retries", "")))
    case (Some(count), Some(max)) => CountedSends(marked, count, max, world, deadLetter);
    case _ =>
  }

  lemma CountedSends(m: Message, count: int, max: int, world: World, deadLetter: string)
    requires m.attributes != map[]
    ensures var e := RetryCounted(m, count, max, world, deadLetter);
      e.sent.Some? ==>
        var a := e.sent.value.attributes;
        && (forall k :: k != "retry_count" ==> (k in a <==> k in m.attributes) && (k in a ==> a[k] == m.attributes[k]))
        && e.sent.value.payload == Env(Message(m.id, m.data, a))
        && (if count >= max then a == m.attributes
            else "retry_count" in a && a["retry_count"] == Strconv.FormatInt(count + 1))
  {
    assert m.attributes["retry_count" := Strconv.FormatInt(count + 1)] != map[] by {
      assert "retry_count" in m.attributes["retry_count" := Strconv.FormatInt(count + 1)];
    }
  }

  /** The counter of the message a failed delivery sends. */
  lemma SentCounter(m: Message, error: string, world: World, deadLetter: string, count: int, max: int)
    requires m.attributes != map[]
    requires Strconv.ParseInt(if "retry_count" in m.attributes then m.attributes["retry_count"] else "0") == Some(count)
    requires Strconv.ParseInt(if "max_retries" in m.attributes then m.attributes["max_retries"] else "") == Some(max)
    ensures var e := Deliver(m, Some(error), world, deadLetter);
      e.sent.Some? ==>
        var a := e.sent.value.attributes;
        if count < max then "retry_count" in a && a["retry_count"] == Strconv.FormatInt(count + 1)
        else ("retry_count" in a <==> "retry_count" in m.attributes)
             && ("retry_count" in a ==> a["retry_count"] == m.attributes["retry_count"])
  {
    MarkedLookups(m.attributes, error);
    CountedSends(m.(attributes := m.attributes["msg" := error]), count, max, world, deadLetter);
  }

  // ----- the two topic handlers -----

  /**
   The request handler: an envelope does not decode as a request, because its `Data` is a
   base64 string where the request's `data` is an object; otherwise the consumer is notified.
   */
  function RequestHandler(data: Payload, notify: Option<string>): Option<string> {
    match data
    case Env(_) => Some("get payload")
    case Req(_) => if notify.Some? then Some("fetch consumer: " + notify.value) else None
  }

  datatype Scheduler = Scheduler(eventName: string, consumers: seq<Consumer>)

  /** What `GetAllSchedulers` answers. */
  datatype Schedulers = NotFound | Failed(error: string) | Found(events: seq<Scheduler>)

  /** `MemStore.GetAllSchedulers`, the store wired to the dead-letter handler. */
  const WIRED_SCHEDULERS := NotFound

  function DeadLetterHandler(data: Payload, schedulers: Schedulers): Option<string> {
    match data
    case Req(_) => Some("failed to get payload")
    case Env(_) =>
      match schedulers
      case NotFound => None
      case Failed(error) => Some("failed to get all schedulers: " + error)
      case Found(_) => None
  }

  /** One call of the fetcher: the event, the dead message and the consumer it goes to. */
  datatype Notice = Notice(eventName: string, message: Message, consumer: Consumer)

  function NoticesFor(e: Scheduler, m: Message): seq<Notice> {
    seq(|e.consumers|, i requires 0 <= i < |e.consumers| => Notice(e.eventName, m, e.consumers[i]))
  }

  function Notices(events: seq<Scheduler>, m: Message): seq<Notice> {
    if events == [] then [] else NoticesFor(events[0], m) + Notices(events[1..], m)
  }

  /** Consumers of the first i events together. */
  function ConsumersBefore(events: seq<Scheduler>, i: nat): nat
    requires i <= |events|
  {
    if i == 0 then 0 else ConsumersBefore(events, i - 1) + |events[i - 1].consumers|
  }

  lemma {:induction false} NoticeCount(events: seq<Scheduler>, m: Message, i: nat)
    requires i <= |events|
    ensures |Notices(events[..i], m)| == ConsumersBefore(events, i)
  {
    if i > 0 {
      NoticeCount(events, m, i - 1);
      NoticesPrefix(events, m, i - 1);
    }
  }

  /** Consumer j of event i is told of that event and the dead message, after all consumers before it. */
  lemma NoticeAt(events: seq<Scheduler>, m: Message, i: nat, j: nat)
    requires i < |events| && j < |events[i].consumers|
    ensures |Notices(events, m)| == ConsumersBefore(events, |events|)
    ensures var n := ConsumersBefore(events, i) + j;
      n < |Notices(events, m)|
      && Notices(events, m)[n].eventName == events[i].eventName
      && Notices(events, m)[n].message == m
      && Notices(events, m)[n].consumer == events[i].consumers[j]
  {
    NoticeCount(events, m, i);
    NoticeCount(events, m, |events|);
    NoticesPrefix(events, m, i);
    assert events[..|events|] == events;
    NoticesStart(events, m, i + 1);
  }

  lemma {:induction false} NoticesStart(events: seq<Scheduler>, m: Message, i: nat)
    requires i <= |events|
    ensures Notices(events[..i], m) <= Notices(events, m)
    decreases |events| - i
  {
    if i == |events| {
      assert events[..i] == events;
    } else {
      NoticesPrefix(events, m, i);
      NoticesStart(events, m, i + 1);
    }
  }

  lemma {:induction false} NoticesPrefix(events: seq<Scheduler>, m: Message, n: nat)
    requires n < |events|
    ensures Notices(events[..n + 1], m) == Notices(events[..n], m) + NoticesFor(events[n], m)
  {
    if n == 0 {
      assert events[..1] == [events[0]];
    } else {
      NoticesPrefix(events[1..], m, n - 1);
      assert events[1..][..n] == events[..n + 1][1..];
      assert events[1..][..n - 1] == events[..n][1..];
    }
  }

  /**
   The dead-letter handler: it fails as `DeadLetterHandler` says, and when it finds schedulers
   it calls the fetcher once per consumer of each event, in order, ignoring the answers.
   */
  method HandleDeadLetter(data: Payload, schedulers: Schedulers) returns (failure: Option<string>, notices: seq<Notice>)
    ensures failure == DeadLetterHandler(data, schedulers)
    ensures failure == None <==> data.Env? && !schedulers.Failed?
    ensures notices == if data.Env? && schedulers.Found? then Notices(schedulers.events, data.message) else []
  {
    notices := [];
    if data.Req? {
      return Some("failed to get payload"), notices;
    }
    if schedulers.NotFound? {
      return None, notices;
    }
    if schedulers.Failed? {
      return Some("failed to get all schedulers: " + schedulers.error), notices;
    }
    var events := schedulers.events;
    for i := 0 to |events|
      invariant notices == Notices(events[..i], data.message)
    {
      for j := 0 to |events[i].consumers|
        invariant notices == Notices(events[..i], data.message) + NoticesFor(events[i], data.message)[..j]
      {
        notices := notices + [Notice(events[i].eventName, data.message, events[i].consumers[j])];
      }
      NoticesPrefix(events, data.message, i);
    }
    assert events[..|events|] == events;
    failure := None;
  }
}
