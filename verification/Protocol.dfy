/**
 Whole runs of the retry and dead-letter protocol: any interleaving of publishes, pulls,
 finished deliveries and expired leases, with handler failures, publish failures and cancellations.
 */
module Protocol {
  import opened Prelude
  import opened PubSub
  import Strconv

  // ----- counting copies -----

  /** Where a copy of a message can be. */
  datatype Place = Queued(topic: string) | Flying(topic: string) | Done(topic: string) | Lost(topic: string)

  type Weight = (Place, Message) -> nat

  function Sum(p: Place, ms: seq<Message>, f: Weight): nat {
    if ms == [] then 0 else f(p, ms[0]) + Sum(p, ms[1..], f)
  }

  function Remove(ms: seq<Message>, i: nat): seq<Message>
    requires i < |ms|
  {
    ms[..i] + ms[i + 1..]
  }

  lemma {:induction false} SumAppend(p: Place, ms: seq<Message>, m: Message, f: Weight)
    ensures Sum(p, ms + [m], f) == Sum(p, ms, f) + f(p, m)
  {
    if ms == [] {
      assert [] + [m] == [m];
      assert [m][1..] == [];
    } else {
      assert (ms + [m])[1..] == ms[1..] + [m];
      SumAppend(p, ms[1..], m, f);
    }
  }

  lemma {:induction false} SumRemove(p: Place, ms: seq<Message>, i: nat, f: Weight)
    requires i < |ms|
    ensures Sum(p, ms, f) == Sum(p, Remove(ms, i), f) + f(p, ms[i])
  {
    if i == 0 {
      assert Remove(ms, 0) == ms[1..];
    } else {
      SumRemove(p, ms[1..], i - 1, f);
      assert Remove(ms, i)[1..] == Remove(ms[1..], i - 1);
    }
  }

  function Count(xs: seq<nat>, x: nat): nat {
    if xs == [] then 0 else Count(xs[..|xs| - 1], x) + if xs[|xs| - 1] == x then 1 else 0
  }

  lemma {:induction false} CountConcat(xs: seq<nat>, ys: seq<nat>, x: nat)
    ensures Count(xs + ys, x) == Count(xs, x) + Count(ys, x)
  {
    if ys == [] {
      assert xs + ys == xs;
    } else {
      CountConcat(xs, ys[..|ys| - 1], x);
      assert (xs + ys)[..|xs + ys| - 1] == xs + ys[..|ys| - 1];
    }
  }

  // ----- what a wrapped message carries -----

  function Wraps(m: Message): nat {
    match m.data
    case Req(_) => 0
    case Env(inner) => Wraps(inner) + 1
  }

  /** The request found by unwrapping fully. */
  function Root(m: Message): Request {
    match m.data
    case Req(request) => request
    case Env(inner) => Root(inner)
  }

  /** The id the broker gave to the first publication. */
  function Origin(m: Message): nat {
    match m.data
    case Req(_) => m.id
    case Env(inner) => Origin(inner)
  }

  // ----- states and steps -----

  datatype Original = Original(request: Request, max: nat)

  /**
   `ledger`: what was first published under each id. `acks`: the origin of each request delivery
   settled by Ack. `duplicates`: the origin of each republication stored although reported as failed.
   */
  datatype System = System(
    names: Names, copies: Copies, nextId: nat, crashed: bool,
    ledger: map<nat, Original>, acks: seq<nat>, duplicates: seq<nat>)

  /** Every copy of a message: offered by the broker, being handled, handled, or acknowledged unhandled. */
  datatype Copies = Copies(topics: Topics, inFlight: Topics, completed: Topics, dropped: Topics)

  function Initial(names: Names): System {
    System(names, Copies(map[], map[], map[], map[]), 0, false, map[], [], [])
  }

  datatype Step =
    | Publish(request: Request, max: nat, result: PublishResult)
    | Pull(topic: string, i: nat)
    | Finish(topic: string, i: nat, notify: Option<string>, schedulers: Schedulers, world: World)
    | Expire(topic: string, i: nat)

  predicate Subscribed(names: Names, topic: string) {
    topic == names.request || topic == names.deadLetter
  }

  predicate Enabled(s: System, step: Step) {
    match step
    case Publish(_, max, _) => max <= Strconv.MAX_INT64
    case Pull(t, i) => Subscribed(s.names, t) && i < |Queue(s.copies.topics, t)|
    case Finish(t, i, _, _, _) => Subscribed(s.names, t) && i < |Queue(s.copies.inFlight, t)|
    case Expire(t, i) => Subscribed(s.names, t) && i < |Queue(s.copies.inFlight, t)|
  }

  function InitialAttributes(topic: string, max: nat): Attributes {
    map["topic" := topic, "max_retries" := Strconv.FormatInt(max)]
  }

  function Take(topics: Topics, t: string, i: nat): Topics
    requires i < |Queue(topics, t)|
  {
    topics[t := Remove(Queue(topics, t), i)]
  }

  /** The error of the handler subscribed to a topic. */
  function Failure(names: Names, t: string, data: Payload, notify: Option<string>,
                   schedulers: Schedulers): Option<string> {
    if t == names.deadLetter then DeadLetterHandler(data, schedulers) else RequestHandler(data, notify)
  }

  /** One more copy of a message at a place. */
  function Put(c: Copies, p: Place, m: Message): Copies {
    match p
    case Queued(t) => c.(topics := Enqueue(c.topics, t, m))
    case Flying(t) => c.(inFlight := Enqueue(c.inFlight, t, m))
    case Done(t) => c.(completed := Enqueue(c.completed, t, m))
    case Lost(t) => c.(dropped := Enqueue(c.dropped, t, m))
  }

  /** The stored message of an effect. */
  function Landed(e: Effect, id: nat): Message
    requires e.sent.Some?
  {
    Message(id, e.sent.value.payload, e.sent.value.attributes)
  }

  function Landing(c: Copies, id: nat, e: Effect): Copies {
    if e.sent.Some? then Put(c, Queued(e.sent.value.topic), Landed(e, id)) else c
  }

  /** The copies a settled delivery leaves behind: the message sent, and where the delivered one ends. */
  function Arrive(c: Copies, id: nat, t: string, m: Message, failed: bool, e: Effect): Copies {
    var c' := Landing(c, id, e);
    if e.settled != Acked then Put(c', Queued(t), m)
    else if !failed then Put(c', Done(t), m)
    else if e.sent.None? then Put(c', Lost(t), m)
    else c'
  }

  function AckDelta(names: Names, t: string, m: Message, e: Effect): seq<nat> {
    if e.settled == Acked && t == names.request then [Origin(m)] else []
  }

  function DuplicateDelta(m: Message, e: Effect): seq<nat> {
    if e.settled != Acked && e.sent.Some? then [Origin(m)] else []
  }

  /** Applies the effect of the delivery of `m`; `c` is the copies without it. */
  function Settle(s: System, c: Copies, t: string, m: Message, failed: bool, e: Effect): System {
    System(s.names, Arrive(c, s.nextId, t, m, failed, e), Stored(c.topics, s.nextId, e).1, s.crashed || e.panicked,
           s.ledger, s.acks + AckDelta(s.names, t, m, e), s.duplicates + DuplicateDelta(m, e))
  }

  function Next(s: System, step: Step): System
    requires Enabled(s, step)
  {
    match step
    case Publish(request, max, result) =>
      if result == Refused then s
      else s.(copies := Put(s.copies, Queued(s.names.request), Fresh(s, request, max)),
              nextId := s.nextId + 1,
              ledger := s.ledger[s.nextId := Original(request, max)])
    case Pull(t, i) =>
      var c := s.copies.(topics := Take(s.copies.topics, t, i));
      s.(copies := Put(c, Flying(t), Queue(s.copies.topics, t)[i]))
    case Expire(t, i) =>
      var c := s.copies.(inFlight := Take(s.copies.inFlight, t, i));
      s.(copies := Put(c, Queued(t), Queue(s.copies.inFlight, t)[i]))
    case Finish(t, i, notify, schedulers, world) =>
      var m := Queue(s.copies.inFlight, t)[i];
      var failure := Failure(s.names, t, m.data, notify, schedulers);
      var c := s.copies.(inFlight := Take(s.copies.inFlight, t, i));
      Settle(s, c, t, m, failure.Some?, Deliver(m, failure, world, s.names.deadLetter))
  }

  /**
   A finished delivery leaves in the broker what `HandleDelivery`
   stores, plus the delivered copy when it was nacked.
   */
  lemma FinishStores(s: System, step: Step)
    requires Enabled(s, step) && step.Finish?
    ensures var m := Queue(s.copies.inFlight, step.topic)[step.i];
      var e := Deliver(m, Failure(s.names, step.topic, m.data, step.notify, step.schedulers), step.world,
          s.names.deadLetter);
      var (topics, nextId) := Stored(s.copies.topics, s.nextId, e);
      && Next(s, step).nextId == nextId
      && Next(s, step).copies.topics == if e.settled == Acked then topics else Enqueue(topics, step.topic, m)
  {
    var m := Queue(s.copies.inFlight, step.topic)[step.i];
    var failure := Failure(s.names, step.topic, m.data, step.notify, step.schedulers);
    ArriveStores(s.copies.(inFlight := Take(s.copies.inFlight, step.topic, step.i)), s.nextId, step.topic, m,
        failure.Some?,
                 Deliver(m, failure, step.world, s.names.deadLetter));
  }

  lemma ArriveStores(c: Copies, id: nat, t: string, m: Message, failed: bool, e: Effect)
    ensures Arrive(c, id, t, m, failed, e).topics
         == var topics := Stored(c.topics, id, e).0;
            if e.settled == Acked then topics else Enqueue(topics, t, m)
  {
    assert Landing(c, id, e).topics == Stored(c.topics, id, e).0;
  }

  /** The first publication of a request. */
  function Fresh(s: System, request: Request, max: nat): Message {
    Message(s.nextId, Req(request), InitialAttributes(s.names.request, max))
  }

  /** A run; steps that are not enabled are skipped. */
  function Exec(s: System, steps: seq<Step>): System
    decreases |steps|
  {
    if steps == [] then s
    else Exec(if Enabled(s, steps[0]) then Next(s, steps[0]) else s, steps[1..])
  }

  // ----- the invariant -----

  /** The retry counter holds n: absent for 0, its decimal text otherwise. */
  predicate CounterIs(attributes: Attributes, n: nat) {
    if n == 0 then "retry_count" !in attributes
    else "retry_count" in attributes && attributes["retry_count"] == Strconv.FormatInt(n)
  }

  /** Identity, payload, topic and retry limit are those of the first publication. */
  predicate Traced(names: Names, ledger: map<nat, Original>, m: Message) {
    && Origin(m) in ledger
    && var o := ledger[Origin(m)];
      && Root(m) == o.request
      && o.max <= Strconv.MAX_INT64
      && "topic" in m.attributes && m.attributes["topic"] == names.request
      && "max_retries" in m.attributes && m.attributes["max_retries"] == Strconv.FormatInt(o.max)
  }

  /** A message on the request topic is wrapped exactly `retry_count` times, at most the limit. */
  predicate Requesting(names: Names, ledger: map<nat, Original>, m: Message) {
    && Traced(names, ledger, m)
    && Wraps(m) <= ledger[Origin(m)].max
    && CounterIs(m.attributes, Wraps(m))
  }

  /**
   An archived message has used up its retries; it is wrapped once
   more, or oftener if dead-letter handling failed.
   */
  predicate Archived(names: Names, ledger: map<nat, Original>, m: Message, wired: bool) {
    && Traced(names, ledger, m)
    && CounterIs(m.attributes, ledger[Origin(m)].max)
    && Wraps(m) >= ledger[Origin(m)].max + 1
    && (wired ==> Wraps(m) == ledger[Origin(m)].max + 1)
  }

  predicate Fits(names: Names, ledger: map<nat, Original>, wired: bool, p: Place, m: Message) {
    if p.topic == names.deadLetter then !p.Lost? && Archived(names, ledger, m, wired)
    else Requesting(names, ledger, m) && (p.Done? ==> Wraps(m) == 0)
  }

  predicate AllFit(names: Names, ledger: map<nat, Original>, wired: bool, p: Place, ms: seq<Message>) {
    forall i :: 0 <= i < |ms| ==> Fits(names, ledger, wired, p, ms[i])
  }

  function At(c: Copies, p: Place): seq<Message> {
    match p
    case Queued(t) => Queue(c.topics, t)
    case Flying(t) => Queue(c.inFlight, t)
    case Done(t) => Queue(c.completed, t)
    case Lost(t) => Queue(c.dropped, t)
  }

  /** Every copy fits the place where it is, and messages exist on the two subscribed topics only. */
  ghost predicate Placed(names: Names, ledger: map<nat, Original>, c: Copies, wired: bool) {
    && (forall t :: t in c.topics ==> Subscribed(names, t))
    && (forall p: Place :: Subscribed(names, p.topic) ==> AllFit(names, ledger, wired, p, At(c, p)))
  }

  /** No handler has panicked, and fresh ids are fresh. */
  predicate Shape(s: System) {
    && s.names.request != s.names.deadLetter
    && !s.crashed
    && (forall o :: o in s.ledger ==> o < s.nextId)
    && (forall o :: o in s.acks + s.duplicates ==> o in s.ledger)
  }

  function Lane(c: Copies, t: string, f: Weight): nat {
    Sum(Queued(t), At(c, Queued(t)), f) + Sum(Flying(t), At(c, Flying(t)), f)
    + Sum(Done(t), At(c, Done(t)), f) + Sum(Lost(t), At(c, Lost(t)), f)
  }

  /** Total weight of all copies. */
  function Total(names: Names, c: Copies, f: Weight): nat {
    Lane(c, names.request, f) + Lane(c, names.deadLetter, f)
  }

  /** Counts the copies with a given origin, wherever they are. */
  function CopyOf(o: nat): Weight {
    (p: Place, m: Message) => if Origin(m) == o then 1 else 0
  }

  /** Request deliveries that the live copies of an origin can still use up. */
  function BudgetOf(names: Names, o: nat, max: nat): Weight {
    (p: Place, m: Message) =>
      if Origin(m) == o && p.topic == names.request && (p.Queued? || p.Flying?) && Wraps(m) <= max
      then max - Wraps(m) + 1 else 0
  }

  /** One copy of an origin, plus one for each republication stored although reported as failed. */
  predicate ConservedAt(s: System, o: nat) {
    Total(s.names, s.copies, CopyOf(o)) == 1 + Count(s.duplicates, o)
  }

  /** max + 1 deliveries for the original and for each duplicate. */
  function Allowance(max: nat, duplicates: nat): nat {
    max + 1 + if duplicates == 0 then 0 else Allowance(max, duplicates - 1)
  }

  /** Request deliveries used and still usable stay within max + 1 for each copy ever made. */
  predicate BoundedAt(s: System, o: nat, max: nat) {
    Count(s.acks, o) + Total(s.names, s.copies, BudgetOf(s.names, o, max)) <= Allowance(max, Count(s.duplicates, o))
  }

  predicate Accounted(s: System) {
    forall o :: o in s.ledger ==> ConservedAt(s, o) && BoundedAt(s, o, s.ledger[o].max)
  }

  ghost predicate WellPlaced(s: System, wired: bool) {
    Shape(s) && Placed(s.names, s.ledger, s.copies, wired)
  }

  ghost predicate Inv(s: System, wired: bool) {
    WellPlaced(s, wired) && Accounted(s)
  }

  // ----- how a step moves weight -----

  lemma EnqueueSum(p: Place, topics: Topics, t: string, m: Message, u: string, f: Weight)
    ensures Sum(p, Queue(Enqueue(topics, t, m), u), f) == Sum(p, Queue(topics, u), f) + if u == t then f(p, m) else 0
  {
    SumAppend(p, Queue(topics, t), m, f);
  }

  lemma TakeSum(p: Place, topics: Topics, t: string, i: nat, u: string, f: Weight)
    requires i < |Queue(topics, t)|
    ensures Sum(p, Queue(topics, u), f)
         == Sum(p, Queue(Take(topics, t, i), u), f) + if u == t then f(p, Queue(topics, t)[i]) else 0
  {
    SumRemove(p, Queue(topics, t), i, f);
  }

  lemma PutLane(c: Copies, p: Place, m: Message, u: string, f: Weight)
    ensures Lane(Put(c, p, m), u, f) == Lane(c, u, f) + if u == p.topic then f(p, m) else 0
  {
    match p
    case Queued(t) => EnqueueSum(p, c.topics, t, m, u, f);
    case Flying(t) => EnqueueSum(p, c.inFlight, t, m, u, f);
    case Done(t) => EnqueueSum(p, c.completed, t, m, u, f);
    case Lost(t) => EnqueueSum(p, c.dropped, t, m, u, f);
  }

  lemma PutTotal(names: Names, c: Copies, p: Place, m: Message, f: Weight)
    requires names.request != names.deadLetter && Subscribed(names, p.topic)
    ensures Total(names, Put(c, p, m), f) == Total(names, c, f) + f(p, m)
  {
    PutLane(c, p, m, names.request, f);
    PutLane(c, p, m, names.deadLetter, f);
  }

  lemma TakeTotal(names: Names, c: Copies, t: string, i: nat, f: Weight)
    requires names.request != names.deadLetter && Subscribed(names, t)
    ensures i < |Queue(c.topics, t)| ==>
      Total(names, c, f) == Total(names, c.(topics := Take(c.topics, t, i)), f) + f(Queued(t), Queue(c.topics, t)[i])
    ensures i < |Queue(c.inFlight, t)| ==>
      Total(names, c, f) == Total(names, c.(inFlight := Take(c.inFlight, t, i)), f)
          + f(Flying(t), Queue(c.inFlight, t)[i])
  {
    TakeLane(c, t, i, names.request, f);
    TakeLane(c, t, i, names.deadLetter, f);
  }

  lemma TakeLane(c: Copies, t: string, i: nat, u: string, f: Weight)
    ensures i < |Queue(c.topics, t)| ==>
      Lane(c, u, f) == Lane(c.(topics := Take(c.topics, t, i)), u, f)
          + if u == t then f(Queued(t), Queue(c.topics, t)[i]) else 0
    ensures i < |Queue(c.inFlight, t)| ==>
      Lane(c, u, f) == Lane(c.(inFlight := Take(c.inFlight, t, i)), u, f)
          + if u == t then f(Flying(t), Queue(c.inFlight, t)[i]) else 0
  {
    if i < |Queue(c.topics, t)| {
      TakeSum(Queued(u), c.topics, t, i, u, f);
    }
    if i < |Queue(c.inFlight, t)| {
      TakeSum(Flying(u), c.inFlight, t, i, u, f);
    }
  }

  /** Weight of the copies left behind by a delivery. */
  function ArriveWeight(id: nat, t: string, m: Message, failed: bool, e: Effect, f: Weight): nat {
    (if e.sent.Some? then f(Queued(e.sent.value.topic), Landed(e, id)) else 0)
    + (if e.settled != Acked then f(Queued(t), m)
       else if !failed then f(Done(t), m)
       else if e.sent.None? then f(Lost(t), m)
       else 0)
  }

  lemma ArriveTotal(names: Names, c: Copies, id: nat, t: string, m: Message, failed: bool, e: Effect, f: Weight)
    requires names.request != names.deadLetter && Subscribed(names, t)
        && (e.sent.Some? ==> Subscribed(names, e.sent.value.topic))
    ensures Total(names, Arrive(c, id, t, m, failed, e), f) == Total(names, c, f) + ArriveWeight(id, t, m, failed, e, f)
  {
    var c' := Landing(c, id, e);
    if e.sent.Some? {
      PutTotal(names, c, Queued(e.sent.value.topic), Landed(e, id), f);
    }
    if e.settled != Acked {
      PutTotal(names, c', Queued(t), m, f);
    } else if !failed {
      PutTotal(names, c', Done(t), m, f);
    } else if e.sent.None? {
      PutTotal(names, c', Lost(t), m, f);
    }
  }

  // ----- what one delivery does to a good message -----

  lemma CounterParses(attributes: Attributes, n: nat)
    requires CounterIs(attributes, n) && n <= Strconv.MAX_INT64
    ensures Strconv.ParseInt(Attribute(attributes, "retry_count", "0")) == Some(n)
  {
    Strconv.IntRoundTrip(n);
    assert Strconv.FormatInt(0) == "0";
  }

  /** Editing attributes changes neither wrapping, nor origin, nor root. */
  lemma LocalEdits(m: Message, attributes: Attributes, id: nat)
    ensures var edited := m.(attributes := attributes);
      && Wraps(edited) == Wraps(m) && Origin(edited) == Origin(m) && Root(edited) == Root(m)
      && var wrapped := Message(id, Env(edited), attributes);
        Wraps(wrapped) == Wraps(m) + 1 && Origin(wrapped) == Origin(m) && Root(wrapped) == Root(m)
  {
  }

  predicate IsPublish(e: Effect, result: PublishResult, topic: string) {
    && e.settled == (if result == Confirmed then Acked else Nacked)
    && (e.sent.Some? <==> result != Refused)
    && (e.sent.Some? ==> e.sent.value.topic == topic)
  }

  /** A delivery that fails on a message whose counters hold `count` and `max`. */
  lemma FailedDelivery(m: Message, error: string, world: World, deadLetter: string, count: nat, max: nat)
    requires CounterIs(m.attributes, count) && count <= Strconv.MAX_INT64 && max <= Strconv.MAX_INT64
    requires "max_retries" in m.attributes && m.attributes["max_retries"] == Strconv.FormatInt(max)
    ensures Deliver(m, Some(error), world, deadLetter)
         == RetryCounted(m.(attributes := m.attributes["msg" := error]), count, max, world, deadLetter)
  {
    var marked := m.attributes["msg" := error];
    assert CounterIs(marked, count);
    CounterParses(marked, count);
    Strconv.IntRoundTrip(max);
    assert "max_retries" in marked && marked["max_retries"] == Strconv.FormatInt(max);
  }

  /** A message that still has retries is dropped by cancellation or goes back once more wrapped and counted. */
  lemma RetryEffect(names: Names, ledger: map<nat, Original>, m: Message, error: string, world: World, id: nat)
    requires Requesting(names, ledger, m) && Wraps(m) < ledger[Origin(m)].max
    ensures var e := Deliver(m, Some(error), world, names.deadLetter);
      && !e.panicked
      && (world.cancelled ==> e.settled == Acked && e.sent.None?)
      && (!world.cancelled ==>
        && IsPublish(e, world.publish, names.request)
        && (e.sent.Some? ==> var n := Landed(e, id);
            Requesting(names, ledger, n) && Wraps(n) == Wraps(m) + 1 && Origin(n) == Origin(m)))
  {
    var count, max := Wraps(m), ledger[Origin(m)].max;
    FailedDelivery(m, error, world, names.deadLetter, count, max);
    MarkedKeeps(names, ledger, m, error);
    CountedEffect(names, ledger, m.(attributes := m.attributes["msg" := error]), world, id);
  }

  lemma MarkedKeeps(names: Names, ledger: map<nat, Original>, m: Message, error: string)
    requires Requesting(names, ledger, m)
    ensures var marked := m.(attributes := m.attributes["msg" := error]);
      Requesting(names, ledger, marked) && Wraps(marked) == Wraps(m) && Origin(marked) == Origin(m)
  {
    LocalEdits(m, m.attributes["msg" := error], 0);
    assert CounterIs(m.attributes["msg" := error], Wraps(m));
  }

  /** What `retryable` does below the limit. */
  lemma CountedEffect(names: Names, ledger: map<nat, Original>, m: Message, world: World, id: nat)
    requires Requesting(names, ledger, m) && Wraps(m) < ledger[Origin(m)].max
    ensures var e := RetryCounted(m, Wraps(m), ledger[Origin(m)].max, world, names.deadLetter);
      && !e.panicked
      && (world.cancelled ==> e.settled == Acked && e.sent.None?)
      && (!world.cancelled ==>
        && IsPublish(e, world.publish, names.request)
        && (e.sent.Some? ==> var n := Landed(e, id);
            Requesting(names, ledger, n) && Wraps(n) == Wraps(m) + 1 && Origin(n) == Origin(m)))
  {
    var counted := m.attributes["retry_count" := Strconv.FormatInt(Wraps(m) + 1)];
    LocalEdits(m, counted, id);
    assert CounterIs(counted, Wraps(m) + 1);
  }

  /** A message whose counter has reached the limit goes to the dead-letter topic, whichever topic it was on. */
  lemma ArchiveEffect(names: Names, ledger: map<nat, Original>, m: Message, error: string, world: World, id: nat)
    requires Traced(names, ledger, m) && CounterIs(m.attributes, ledger[Origin(m)].max)
    ensures var e := Deliver(m, Some(error), world, names.deadLetter);
      && !e.panicked
      && IsPublish(e, world.publish, names.deadLetter)
      && (e.sent.Some? ==> var n := Landed(e, id);
          && Traced(names, ledger, n) && CounterIs(n.attributes, ledger[Origin(n)].max)
          && Wraps(n) == Wraps(m) + 1 && Origin(n) == Origin(m))
  {
    var max := ledger[Origin(m)].max;
    FailedDelivery(m, error, world, names.deadLetter, max, max);
    LocalEdits(m, m.attributes["msg" := error], id);
  }

  lemma PutPlaced(names: Names, ledger: map<nat, Original>, c: Copies, wired: bool, p: Place, m: Message)
    requires Placed(names, ledger, c, wired) && Subscribed(names, p.topic) && Fits(names, ledger, wired, p, m)
    ensures Placed(names, ledger, Put(c, p, m), wired)
  {
    var c' := Put(c, p, m);
    forall q: Place | Subscribed(names, q.topic)
      ensures AllFit(names, ledger, wired, q, At(c', q))
    {
      assert AllFit(names, ledger, wired, q, At(c, q));
      PutAt(c, p, m, q);
      if q == p {
        AppendFits(names, ledger, wired, p, At(c, p), m);
      }
    }
  }

  lemma PutAt(c: Copies, p: Place, m: Message, q: Place)
    ensures At(Put(c, p, m), q) == if q == p then At(c, q) + [m] else At(c, q)
  {
  }

  lemma AppendFits(names: Names, ledger: map<nat, Original>, wired: bool, p: Place, ms: seq<Message>, m: Message)
    requires AllFit(names, ledger, wired, p, ms) && Fits(names, ledger, wired, p, m)
    ensures AllFit(names, ledger, wired, p, ms + [m])
  {
  }

  lemma TakeFits(names: Names, ledger: map<nat, Original>, wired: bool, p: Place, ms: seq<Message>, i: nat)
    requires AllFit(names, ledger, wired, p, ms) && i < |ms|
    ensures AllFit(names, ledger, wired, p, Remove(ms, i)) && Fits(names, ledger, wired, p, ms[i])
  {
  }

  lemma TakeFlyingPlaced(names: Names, ledger: map<nat, Original>, c: Copies, wired: bool, t: string, i: nat)
    requires Placed(names, ledger, c, wired) && Subscribed(names, t) && i < |Queue(c.inFlight, t)|
    ensures Placed(names, ledger, c.(inFlight := Take(c.inFlight, t, i)), wired)
    ensures Fits(names, ledger, wired, Flying(t), Queue(c.inFlight, t)[i])
  {
    var c' := c.(inFlight := Take(c.inFlight, t, i));
    forall q: Place | Subscribed(names, q.topic)
      ensures AllFit(names, ledger, wired, q, At(c', q))
    {
      assert AllFit(names, ledger, wired, q, At(c, q));
      if q == Flying(t) {
        TakeFits(names, ledger, wired, q, At(c, q), i);
      } else {
        assert At(c', q) == At(c, q);
      }
    }
    TakeFits(names, ledger, wired, Flying(t), At(c, Flying(t)), i);
  }

  lemma TakeQueuedPlaced(names: Names, ledger: map<nat, Original>, c: Copies, wired: bool, t: string, i: nat)
    requires Placed(names, ledger, c, wired) && Subscribed(names, t) && i < |Queue(c.topics, t)|
    ensures Placed(names, ledger, c.(topics := Take(c.topics, t, i)), wired)
    ensures Fits(names, ledger, wired, Queued(t), Queue(c.topics, t)[i])
  {
    var c' := c.(topics := Take(c.topics, t, i));
    forall q: Place | Subscribed(names, q.topic)
      ensures AllFit(names, ledger, wired, q, At(c', q))
    {
      assert AllFit(names, ledger, wired, q, At(c, q));
      if q == Queued(t) {
        TakeFits(names, ledger, wired, q, At(c, q), i);
      } else {
        assert At(c', q) == At(c, q);
      }
    }
    TakeFits(names, ledger, wired, Queued(t), At(c, Queued(t)), i);
  }

  /** A good outcome of the delivery of `m` on topic `t`. */
  predicate GoodOutcome(names: Names, ledger: map<nat, Original>, wired: bool, t: string, m: Message, failed: bool,
                        e: Effect, id: nat) {
    && !e.panicked
    && (e.sent.Some? ==>
      && Subscribed(names, e.sent.value.topic) && failed && Origin(Landed(e, id)) == Origin(m)
      && Fits(names, ledger, wired, Queued(e.sent.value.topic), Landed(e, id))
      && (e.sent.value.topic == names.request ==> t == names.request && Wraps(Landed(e, id)) == Wraps(m) + 1))
    && (e.settled == Acked && !failed ==> Fits(names, ledger, wired, Done(t), m))
    && (e.settled == Acked && failed && e.sent.None? ==> Fits(names, ledger, wired, Lost(t), m))
  }

  lemma RequestOutcome(names: Names, ledger: map<nat, Original>, wired: bool, m: Message, notify: Option<string>,
                       world: World, id: nat)
    requires names.request != names.deadLetter
    requires Requesting(names, ledger, m)
    ensures var failure := RequestHandler(m.data, notify);
      GoodOutcome(names, ledger, wired, names.request, m, failure.Some?,
          Deliver(m, failure, world, names.deadLetter), id)
  {
    match RequestHandler(m.data, notify)
    case None =>
    case Some(error) =>
      if Wraps(m) < ledger[Origin(m)].max {
        RetryEffect(names, ledger, m, error, world, id);
      } else {
        ArchiveEffect(names, ledger, m, error, world, id);
      }
  }

  lemma ArchivedOutcome(names: Names, ledger: map<nat, Original>, wired: bool, m: Message, schedulers: Schedulers,
                        world: World, id: nat)
    requires names.request != names.deadLetter
    requires Archived(names, ledger, m, wired) && (wired ==> schedulers == WIRED_SCHEDULERS)
    ensures var failure := DeadLetterHandler(m.data, schedulers);
      GoodOutcome(names, ledger, wired, names.deadLetter, m, failure.Some?,
          Deliver(m, failure, world, names.deadLetter), id)
  {
    match DeadLetterHandler(m.data, schedulers)
    case None =>
    case Some(error) =>
      ArchiveEffect(names, ledger, m, error, world, id);
  }

  // ----- one step keeps the invariant -----

  /** The steps of the wired deployment: the dead-letter handler reads `MemStore`. */
  predicate Wired(step: Step) {
    step.Finish? ==> step.schedulers == WIRED_SCHEDULERS
  }

  /** A delivery in progress with everything known about its outcome. */
  predicate Delivering(names: Names, ledger: map<nat, Original>, id: nat, wired: bool, t: string, m: Message,
                       failed: bool, e: Effect) {
    && names.request != names.deadLetter && Subscribed(names, t)
    && Fits(names, ledger, wired, Flying(t), m)
    && GoodOutcome(names, ledger, wired, t, m, failed, e, id)
  }

  lemma ArrivePlaced(names: Names, ledger: map<nat, Original>, c: Copies, id: nat, wired: bool, t: string,
                     m: Message, failed: bool, e: Effect)
    requires Placed(names, ledger, c, wired) && Delivering(names, ledger, id, wired, t, m, failed, e)
    ensures Placed(names, ledger, Arrive(c, id, t, m, failed, e), wired)
  {
    var c' := Landing(c, id, e);
    if e.sent.Some? {
      PutPlaced(names, ledger, c, wired, Queued(e.sent.value.topic), Landed(e, id));
    }
    if e.settled != Acked {
      PutPlaced(names, ledger, c', wired, Queued(t), m);
    } else if !failed {
      PutPlaced(names, ledger, c', wired, Done(t), m);
    } else if e.sent.None? {
      PutPlaced(names, ledger, c', wired, Lost(t), m);
    }
  }

  lemma ArriveCopies(names: Names, ledger: map<nat, Original>, id: nat, wired: bool, t: string, m: Message,
                     failed: bool, e: Effect, o: nat)
    requires Delivering(names, ledger, id, wired, t, m, failed, e)
    ensures ArriveWeight(id, t, m, failed, e, CopyOf(o)) == CopyOf(o)(Flying(t), m) + Count(DuplicateDelta(m, e), o)
  {
  }

  /**
   The budget after a delivery, plus the Ack it used, is at most the
   budget before, or one full budget more for a duplicate.
   */
  lemma ArriveBudget(names: Names, ledger: map<nat, Original>, id: nat, wired: bool, t: string, m: Message,
                     failed: bool, e: Effect, o: nat)
    requires o in ledger && Delivering(names, ledger, id, wired, t, m, failed, e)
    ensures var max := ledger[o].max;
      var f := BudgetOf(names, o, max);
      ArriveWeight(id, t, m, failed, e, f) + Count(AckDelta(names, t, m, e), o)
      <= f(Flying(t), m) + (if Count(DuplicateDelta(m, e), o) == 0 then 0 else max + 1)
    ensures Count(DuplicateDelta(m, e), o) <= 1
  {
  }

  /** What is known when a handler finishes: the copies without the message, the message, and its outcome. */
  ghost predicate Finishing(s: System, wired: bool, c: Copies, t: string, m: Message, failed: bool, e: Effect) {
    && Shape(s) && Placed(s.names, s.ledger, c, wired)
    && Delivering(s.names, s.ledger, s.nextId, wired, t, m, failed, e)
    && (forall f: Weight :: Total(s.names, s.copies, f) == Total(s.names, c, f) + f(Flying(t), m))
  }

  lemma SettlePlaced(s: System, wired: bool, c: Copies, t: string, m: Message, failed: bool, e: Effect)
    requires Finishing(s, wired, c, t, m, failed, e)
    ensures WellPlaced(Settle(s, c, t, m, failed, e), wired)
  {
    ArrivePlaced(s.names, s.ledger, c, s.nextId, wired, t, m, failed, e);
  }

  /** How finishing a delivery changes any total and both histories. */
  lemma SettleMeasures(s: System, wired: bool, c: Copies, t: string, m: Message, failed: bool, e: Effect, o: nat,
                       f: Weight)
    requires Finishing(s, wired, c, t, m, failed, e)
    ensures var s' := Settle(s, c, t, m, failed, e);
      && Total(s.names, s'.copies, f) + f(Flying(t), m)
           == Total(s.names, s.copies, f) + ArriveWeight(s.nextId, t, m, failed, e, f)
      && Count(s'.acks, o) == Count(s.acks, o) + Count(AckDelta(s.names, t, m, e), o)
      && Count(s'.duplicates, o) == Count(s.duplicates, o) + Count(DuplicateDelta(m, e), o)
  {
    ArriveTotal(s.names, c, s.nextId, t, m, failed, e, f);
    CountConcat(s.duplicates, DuplicateDelta(m, e), o);
    CountConcat(s.acks, AckDelta(s.names, t, m, e), o);
  }

  lemma SettleConserves(s: System, wired: bool, c: Copies, t: string, m: Message, failed: bool, e: Effect, o: nat)
    requires Finishing(s, wired, c, t, m, failed, e) && ConservedAt(s, o)
    ensures ConservedAt(Settle(s, c, t, m, failed, e), o)
  {
    ArriveCopies(s.names, s.ledger, s.nextId, wired, t, m, failed, e, o);
    SettleMeasures(s, wired, c, t, m, failed, e, o, CopyOf(o));
  }

  lemma BoundsStep(s: System, s': System, o: nat, max: nat, before: nat, after: nat, ack: nat, extra: nat)
    requires s'.names == s.names && BoundedAt(s, o, max)
    requires Total(s.names, s'.copies, BudgetOf(s.names, o, max)) + before
        == Total(s.names, s.copies, BudgetOf(s.names, o, max)) + after
    requires Count(s'.acks, o) == Count(s.acks, o) + ack && Count(s'.duplicates, o) == Count(s.duplicates, o) + extra
    requires extra <= 1 && after + ack <= before + if extra == 0 then 0 else max + 1
    ensures BoundedAt(s', o, max)
  {
  }

  lemma SettleBounds(s: System, wired: bool, c: Copies, t: string, m: Message, failed: bool, e: Effect, o: nat)
    requires Finishing(s, wired, c, t, m, failed, e) && o in s.ledger && BoundedAt(s, o, s.ledger[o].max)
    ensures BoundedAt(Settle(s, c, t, m, failed, e), o, s.ledger[o].max)
  {
    var max := s.ledger[o].max;
    var f := BudgetOf(s.names, o, max);
    ArriveBudget(s.names, s.ledger, s.nextId, wired, t, m, failed, e, o);
    SettleMeasures(s, wired, c, t, m, failed, e, o, f);
    BoundsStep(s, Settle(s, c, t, m, failed, e), o, max, f(Flying(t), m), ArriveWeight(s.nextId, t, m, failed, e, f),
               Count(AckDelta(s.names, t, m, e), o), Count(DuplicateDelta(m, e), o));
  }

  lemma FinishKeeps(s: System, wired: bool, step: Step)
    requires Inv(s, wired) && Enabled(s, step) && step.Finish? && (wired ==> Wired(step))
    ensures Inv(Next(s, step), wired)
  {
    var t := step.topic;
    var m := Queue(s.copies.inFlight, t)[step.i];
    var failure := Failure(s.names, t, m.data, step.notify, step.schedulers);
    var c := s.copies.(inFlight := Take(s.copies.inFlight, t, step.i));
    var e := Deliver(m, failure, step.world, s.names.deadLetter);
    FinishStarts(s, wired, step);
    SettlePlaced(s, wired, c, t, m, failure.Some?, e);
    var s' := Settle(s, c, t, m, failure.Some?, e);
    forall o | o in s.ledger
      ensures ConservedAt(s', o) && BoundedAt(s', o, s.ledger[o].max)
    {
      SettleConserves(s, wired, c, t, m, failure.Some?, e, o);
      SettleBounds(s, wired, c, t, m, failure.Some?, e, o);
    }
  }

  lemma FinishStarts(s: System, wired: bool, step: Step)
    requires WellPlaced(s, wired) && Enabled(s, step) && step.Finish? && (wired ==> Wired(step))
    ensures var m := Queue(s.copies.inFlight, step.topic)[step.i];
      var failure := Failure(s.names, step.topic, m.data, step.notify, step.schedulers);
      Finishing(s, wired, s.copies.(inFlight := Take(s.copies.inFlight, step.topic, step.i)), step.topic, m,
          failure.Some?,
                Deliver(m, failure, step.world, s.names.deadLetter))
  {
    var t := step.topic;
    var m := Queue(s.copies.inFlight, t)[step.i];
    TakeFlyingPlaced(s.names, s.ledger, s.copies, wired, t, step.i);
    forall f: Weight {
      TakeTotal(s.names, s.copies, t, step.i, f);
    }
    if t == s.names.deadLetter {
      ArchivedOutcome(s.names, s.ledger, wired, m, step.schedulers, step.world, s.nextId);
    } else {
      RequestOutcome(s.names, s.ledger, wired, m, step.notify, step.world, s.nextId);
    }
  }

  /** Pulling and losing a lease move one copy between the queue and the handlers of its topic. */
  lemma MovePlaced(s: System, wired: bool, step: Step)
    requires WellPlaced(s, wired) && Enabled(s, step) && (step.Pull? || step.Expire?)
    ensures WellPlaced(Next(s, step), wired)
  {
    var t := step.topic;
    if step.Pull? {
      TakeQueuedPlaced(s.names, s.ledger, s.copies, wired, t, step.i);
      PutPlaced(s.names, s.ledger, s.copies.(topics := Take(s.copies.topics, t, step.i)), wired, Flying(t),
          Queue(s.copies.topics, t)[step.i]);
    } else {
      TakeFlyingPlaced(s.names, s.ledger, s.copies, wired, t, step.i);
      PutPlaced(s.names, s.ledger, s.copies.(inFlight := Take(s.copies.inFlight, t, step.i)), wired, Queued(t),
          Queue(s.copies.inFlight, t)[step.i]);
    }
  }

  lemma MoveAccounts(s: System, step: Step, o: nat, max: nat)
    requires s.names.request != s.names.deadLetter && Enabled(s, step) && (step.Pull? || step.Expire?)
    requires ConservedAt(s, o) && BoundedAt(s, o, max)
    ensures ConservedAt(Next(s, step), o) && BoundedAt(Next(s, step), o, max)
  {
    var s' := Next(s, step);
    MoveTotal(s, step.topic, step.i, step.Pull?, CopyOf(o));
    MoveTotal(s, step.topic, step.i, step.Pull?, BudgetOf(s.names, o, max));
    SameAccounts(s, s', o, max);
  }

  lemma SameAccounts(s: System, s': System, o: nat, max: nat)
    requires ConservedAt(s, o) && BoundedAt(s, o, max)
    requires s'.names == s.names && s'.acks == s.acks && s'.duplicates == s.duplicates
    requires Total(s.names, s'.copies, CopyOf(o)) == Total(s.names, s.copies, CopyOf(o))
    requires Total(s.names, s'.copies, BudgetOf(s.names, o, max)) == Total(s.names, s.copies, BudgetOf(s.names, o, max))
    ensures ConservedAt(s', o) && BoundedAt(s', o, max)
  {
  }

  lemma MoveKeeps(s: System, wired: bool, step: Step)
    requires Inv(s, wired) && Enabled(s, step) && (step.Pull? || step.Expire?)
    ensures Inv(Next(s, step), wired)
  {
    MovePlaced(s, wired, step);
    var s' := Next(s, step);
    assert s'.ledger == s.ledger;
    forall o | o in s.ledger
      ensures ConservedAt(s', o) && BoundedAt(s', o, s.ledger[o].max)
    {
      MoveAccounts(s, step, o, s.ledger[o].max);
    }
  }

  lemma MoveTotal(s: System, t: string, i: nat, pull: bool, f: Weight)
    requires s.names.request != s.names.deadLetter && Subscribed(s.names, t)
    requires i < |Queue(if pull then s.copies.topics else s.copies.inFlight, t)|
    requires forall m :: f(Queued(t), m) == f(Flying(t), m)
    ensures Total(s.names, Next(s, if pull then Pull(t, i) else Expire(t, i)).copies, f) == Total(s.names, s.copies, f)
  {
    TakeTotal(s.names, s.copies, t, i, f);
    if pull {
      PutTotal(s.names, s.copies.(topics := Take(s.copies.topics, t, i)), Flying(t), Queue(s.copies.topics, t)[i], f);
    } else {
      PutTotal(s.names, s.copies.(inFlight := Take(s.copies.inFlight, t, i)), Queued(t),
          Queue(s.copies.inFlight, t)[i], f);
    }
  }

  lemma {:induction false} SumZero(p: Place, ms: seq<Message>, f: Weight)
    requires forall i :: 0 <= i < |ms| ==> f(p, ms[i]) == 0
    ensures Sum(p, ms, f) == 0
  {
    if ms != [] {
      SumZero(p, ms[1..], f);
    }
  }

  lemma {:induction false} CountAbsent(xs: seq<nat>, x: nat)
    requires x !in xs
    ensures Count(xs, x) == 0
  {
    if xs != [] {
      CountAbsent(xs[..|xs| - 1], x);
    }
  }

  /** Nothing has an origin that was never published. */
  lemma UnknownOrigin(s: System, wired: bool, o: nat, f: Weight)
    requires WellPlaced(s, wired) && o !in s.ledger
    requires forall p: Place, m: Message :: Origin(m) != o ==> f(p, m) == 0
    ensures Total(s.names, s.copies, f) == 0 && Count(s.acks, o) == 0 && Count(s.duplicates, o) == 0
  {
    CountAbsent(s.acks, o);
    CountAbsent(s.duplicates, o);
    UnknownLane(s, wired, s.names.request, o, f);
    UnknownLane(s, wired, s.names.deadLetter, o, f);
  }

  lemma UnknownLane(s: System, wired: bool, t: string, o: nat, f: Weight)
    requires WellPlaced(s, wired) && o !in s.ledger && Subscribed(s.names, t)
    requires forall p: Place, m: Message :: Origin(m) != o ==> f(p, m) == 0
    ensures Lane(s.copies, t, f) == 0
  {
    UnknownPlace(s, wired, Queued(t), o, f);
    UnknownPlace(s, wired, Flying(t), o, f);
    UnknownPlace(s, wired, Done(t), o, f);
    UnknownPlace(s, wired, Lost(t), o, f);
  }

  lemma UnknownPlace(s: System, wired: bool, p: Place, o: nat, f: Weight)
    requires WellPlaced(s, wired) && o !in s.ledger && Subscribed(s.names, p.topic)
    requires forall p: Place, m: Message :: Origin(m) != o ==> f(p, m) == 0
    ensures Sum(p, At(s.copies, p), f) == 0
  {
    assert AllFit(s.names, s.ledger, wired, p, At(s.copies, p));
    SumZero(p, At(s.copies, p), f);
  }

  lemma LedgerGrows(names: Names, ledger: map<nat, Original>, c: Copies, wired: bool, o: nat, entry: Original)
    requires Placed(names, ledger, c, wired) && o !in ledger
    ensures Placed(names, ledger[o := entry], c, wired)
  {
    forall p: Place | Subscribed(names, p.topic)
      ensures AllFit(names, ledger[o := entry], wired, p, At(c, p))
    {
      assert AllFit(names, ledger, wired, p, At(c, p));
    }
  }

  lemma PublishPlaced(s: System, wired: bool, step: Step)
    requires WellPlaced(s, wired) && Enabled(s, step) && step.Publish? && step.result != Refused
    ensures WellPlaced(Next(s, step), wired)
  {
    var id, entry := s.nextId, Original(step.request, step.max);
    LedgerGrows(s.names, s.ledger, s.copies, wired, id, entry);
    PutPlaced(s.names, s.ledger[id := entry], s.copies, wired, Queued(s.names.request),
        Fresh(s, step.request, step.max));
  }

  /** A first publication leaves the accounts of every other id alone. */
  lemma PublishOther(s: System, step: Step, o: nat, max: nat)
    requires Shape(s) && Enabled(s, step) && step.Publish? && step.result != Refused
    requires o != s.nextId && ConservedAt(s, o) && BoundedAt(s, o, max)
    ensures ConservedAt(Next(s, step), o) && BoundedAt(Next(s, step), o, max)
  {
    var m := Fresh(s, step.request, step.max);
    PutTotal(s.names, s.copies, Queued(s.names.request), m, CopyOf(o));
    PutTotal(s.names, s.copies, Queued(s.names.request), m, BudgetOf(s.names, o, max));
    SameAccounts(s, Next(s, step), o, max);
  }

  /** The new id starts with one copy and a full budget. */
  lemma PublishNew(s: System, wired: bool, step: Step)
    requires WellPlaced(s, wired) && Enabled(s, step) && step.Publish? && step.result != Refused
    ensures ConservedAt(Next(s, step), s.nextId) && BoundedAt(Next(s, step), s.nextId, step.max)
  {
    var o, m := s.nextId, Fresh(s, step.request, step.max);
    var f := BudgetOf(s.names, o, step.max);
    UnknownOrigin(s, wired, o, CopyOf(o));
    UnknownOrigin(s, wired, o, f);
    PutTotal(s.names, s.copies, Queued(s.names.request), m, CopyOf(o));
    PutTotal(s.names, s.copies, Queued(s.names.request), m, f);
    FreshWeights(s.names, o, m, step.max);
    assert Next(s, step).names == s.names && Next(s, step).acks == s.acks && Next(s, step).duplicates == s.duplicates;
    FirstAccounts(Next(s, step), o, step.max);
  }

  lemma FreshWeights(names: Names, o: nat, m: Message, max: nat)
    requires m.data.Req? && m.id == o
    ensures CopyOf(o)(Queued(names.request), m) == 1 && BudgetOf(names, o, max)(Queued(names.request), m) == max + 1
  {
    assert Origin(m) == o && Wraps(m) == 0;
    var p := Queued(names.request);
    assert p.topic == names.request && p.Queued?;
  }

  lemma FirstAccounts(s': System, o: nat, max: nat)
    requires Count(s'.acks, o) == 0 && Count(s'.duplicates, o) == 0
    requires Total(s'.names, s'.copies, CopyOf(o)) == 1
        && Total(s'.names, s'.copies, BudgetOf(s'.names, o, max)) <= max + 1
    ensures ConservedAt(s', o) && BoundedAt(s', o, max)
  {
    assert Allowance(max, 0) == max + 1;
  }

  lemma PublishKeeps(s: System, wired: bool, step: Step)
    requires Inv(s, wired) && Enabled(s, step) && step.Publish?
    ensures Inv(Next(s, step), wired)
  {
    if step.result != Refused {
      PublishPlaced(s, wired, step);
      var s' := Next(s, step);
      forall o | o in s'.ledger
        ensures ConservedAt(s', o) && BoundedAt(s', o, s'.ledger[o].max)
      {
        if o == s.nextId {
          PublishNew(s, wired, step);
        } else {
          PublishOther(s, step, o, s.ledger[o].max);
        }
      }
    }
  }

  lemma StepKeepsInv(s: System, wired: bool, step: Step)
    requires Inv(s, wired) && Enabled(s, step) && (wired ==> Wired(step))
    ensures Inv(Next(s, step), wired)
  {
    match step
    case Publish(_, _, _) => PublishKeeps(s, wired, step);
    case Pull(_, _) => MoveKeeps(s, wired, step);
    case Expire(_, _) => MoveKeeps(s, wired, step);
    case Finish(_, _, _, _, _) => FinishKeeps(s, wired, step);
  }

  predicate AllWired(steps: seq<Step>) {
    forall i :: 0 <= i < |steps| ==> Wired(steps[i])
  }

  lemma {:induction false} RunKeepsInv(s: System, wired: bool, steps: seq<Step>)
    requires Inv(s, wired) && (wired ==> AllWired(steps))
    ensures Inv(Exec(s, steps), wired)
    decreases |steps|
  {
    if steps != [] {
      if Enabled(s, steps[0]) {
        StepKeepsInv(s, wired, steps[0]);
      }
      RunKeepsInv(if Enabled(s, steps[0]) then Next(s, steps[0]) else s, wired, steps[1..]);
    }
  }

  lemma InitialInv(names: Names, wired: bool)
    requires names.request != names.deadLetter
    ensures Inv(Initial(names), wired)
  {
    assert forall p: Place {:trigger At(Initial(names).copies, p)} :: At(Initial(names).copies, p) == [];
  }

  // ----- termination -----

  /** Steps that a live copy can still take when nothing goes wrong. */
  function Work(names: Names, ledger: map<nat, Original>): Weight {
    (p: Place, m: Message) =>
      if p.Done? || p.Lost? || Origin(m) !in ledger then 0
      else
        var deliveries := if p.topic == names.request && Wraps(m) <= ledger[Origin(m)].max
            then ledger[Origin(m)].max - Wraps(m) + 2 else 1;
        if p.Queued? then 2 * deliveries else 2 * deliveries - 1
  }

  function Remaining(s: System): nat {
    Total(s.names, s.copies, Work(s.names, s.ledger))
  }

  /** A pull, or a finished delivery whose publications, if any, are confirmed. */
  predicate Smooth(step: Step) {
    step.Pull? || (step.Finish? && Wired(step) && step.world.publish == Confirmed)
  }

  lemma PullDecreases(s: System, wired: bool, step: Step)
    requires WellPlaced(s, wired) && Enabled(s, step) && step.Pull?
    ensures Remaining(Next(s, step)) < Remaining(s)
  {
    var t := step.topic;
    var f := Work(s.names, s.ledger);
    TakeQueuedPlaced(s.names, s.ledger, s.copies, wired, t, step.i);
    TakeTotal(s.names, s.copies, t, step.i, f);
    var c, m := s.copies.(topics := Take(s.copies.topics, t, step.i)), Queue(s.copies.topics, t)[step.i];
    PutTotal(s.names, c, Flying(t), m, f);
    PulledWork(s.names, s.ledger, t, m);
  }

  lemma PulledWork(names: Names, ledger: map<nat, Original>, t: string, m: Message)
    requires Origin(m) in ledger
    ensures Work(names, ledger)(Flying(t), m) < Work(names, ledger)(Queued(t), m)
  {
  }

  /** With a confirmed publication, a retry leaves less work than the delivered copy had. */
  lemma RetryWork(names: Names, ledger: map<nat, Original>, m: Message, e: Effect, id: nat)
    requires names.request != names.deadLetter && Requesting(names, ledger, m) && Wraps(m) < ledger[Origin(m)].max
    requires e.settled == Acked
    requires e.sent.Some? ==>
        e.sent.value.topic == names.request && Wraps(Landed(e, id)) == Wraps(m) + 1
            && Origin(Landed(e, id)) == Origin(m)
    ensures var f := Work(names, ledger);
      ArriveWeight(id, names.request, m, true, e, f) < f(Flying(names.request), m)
  {
  }

  lemma ArchiveWork(names: Names, ledger: map<nat, Original>, m: Message, e: Effect, id: nat)
    requires names.request != names.deadLetter && Requesting(names, ledger, m)
    requires e.settled == Acked
    requires e.sent.Some? ==> e.sent.value.topic == names.deadLetter && Origin(Landed(e, id)) == Origin(m)
    ensures var f := Work(names, ledger);
      ArriveWeight(id, names.request, m, true, e, f) < f(Flying(names.request), m)
  {
  }

  /** With confirmed publications, the copies left behind have less work than the delivered one had. */
  lemma WiredRequestWork(names: Names, ledger: map<nat, Original>, m: Message, notify: Option<string>, world: World,
                         id: nat)
    requires names.request != names.deadLetter && Requesting(names, ledger, m) && world.publish == Confirmed
    ensures var failure := RequestHandler(m.data, notify);
      var e, f := Deliver(m, failure, world, names.deadLetter), Work(names, ledger);
      ArriveWeight(id, names.request, m, failure.Some?, e, f) < f(Flying(names.request), m)
  {
    match RequestHandler(m.data, notify)
    case None =>
    case Some(error) =>
      var e := Deliver(m, Some(error), world, names.deadLetter);
      if Wraps(m) < ledger[Origin(m)].max {
        RetryEffect(names, ledger, m, error, world, id);
        RetryWork(names, ledger, m, e, id);
      } else {
        ArchiveEffect(names, ledger, m, error, world, id);
        ArchiveWork(names, ledger, m, e, id);
      }
  }

  lemma SettleDecreases(s: System, c: Copies, t: string, m: Message, failed: bool, e: Effect)
    requires Finishing(s, true, c, t, m, failed, e)
    requires ArriveWeight(s.nextId, t, m, failed, e, Work(s.names, s.ledger)) < Work(s.names, s.ledger)(Flying(t), m)
    ensures Remaining(Settle(s, c, t, m, failed, e)) < Remaining(s)
  {
    SettleMeasures(s, true, c, t, m, failed, e, 0, Work(s.names, s.ledger));
  }

  /** In the wired deployment a dead-letter delivery leaves no work. */
  lemma WiredArchivedWork(names: Names, ledger: map<nat, Original>, m: Message, world: World, id: nat)
    requires Archived(names, ledger, m, true)
    ensures var failure := DeadLetterHandler(m.data, WIRED_SCHEDULERS);
      var e, f := Deliver(m, failure, world, names.deadLetter), Work(names, ledger);
      ArriveWeight(id, names.deadLetter, m, failure.Some?, e, f) < f(Flying(names.deadLetter), m)
  {
    assert m.data.Env?;
  }

  lemma FinishDecreases(s: System, step: Step)
    requires WellPlaced(s, true) && Enabled(s, step) && step.Finish? && Smooth(step)
    ensures Remaining(Next(s, step)) < Remaining(s)
  {
    var t := step.topic;
    var m := Queue(s.copies.inFlight, t)[step.i];
    var failure := Failure(s.names, t, m.data, step.notify, step.schedulers);
    var e := Deliver(m, failure, step.world, s.names.deadLetter);
    FinishStarts(s, true, step);
    if t == s.names.request {
      WiredRequestWork(s.names, s.ledger, m, step.notify, step.world, s.nextId);
    } else {
      WiredArchivedWork(s.names, s.ledger, m, step.world, s.nextId);
    }
    SettleDecreases(s, s.copies.(inFlight := Take(s.copies.inFlight, t, step.i)), t, m, failure.Some?, e);
  }

  lemma SmoothStep(s: System, step: Step)
    requires Inv(s, true) && Enabled(s, step) && Smooth(step)
    ensures Inv(Next(s, step), true) && Remaining(Next(s, step)) < Remaining(s)
  {
    StepKeepsInv(s, true, step);
    if step.Pull? {
      PullDecreases(s, true, step);
    } else {
      FinishDecreases(s, step);
    }
  }

  ghost predicate SmoothRun(s: System, steps: seq<Step>)
    decreases |steps|
  {
    steps == [] || (Enabled(s, steps[0]) && Smooth(steps[0]) && SmoothRun(Next(s, steps[0]), steps[1..]))
  }

  /** A run of smooth steps is at most as long as the work remaining at its start. */
  lemma {:induction false} SmoothRunsEnd(s: System, steps: seq<Step>)
    requires Inv(s, true) && SmoothRun(s, steps)
    ensures |steps| + Remaining(Exec(s, steps)) <= Remaining(s)
    decreases |steps|
  {
    if steps != [] {
      SmoothStep(s, steps[0]);
      SmoothRunsEnd(Next(s, steps[0]), steps[1..]);
    }
  }
}
