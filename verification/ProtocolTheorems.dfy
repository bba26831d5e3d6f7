/** What holds in every run of the protocol, for any two distinct topic names. */
module ProtocolTheorems {
  import opened Prelude
  import opened PubSub
  import opened Protocol

  /** The state after a run from the empty broker. */
  function Reached(names: Names, steps: seq<Step>): System {
    Exec(Initial(names), steps)
  }

  lemma ReachedInv(names: Names, wired: bool, steps: seq<Step>)
    requires names.request != names.deadLetter && (wired ==> AllWired(steps))
    ensures Inv(Reached(names, steps), wired)
  {
    InitialInv(names, wired);
    RunKeepsInv(Initial(names), wired, steps);
  }

  lemma {:induction false} NamesKept(s: System, steps: seq<Step>)
    ensures Exec(s, steps).names == s.names
    decreases |steps|
  {
    if steps != [] {
      NamesKept(if Enabled(s, steps[0]) then Next(s, steps[0]) else s, steps[1..]);
    }
  }

  // ----- conservation -----

  /**
   Through any mix of failures, Nacks, lost leases and cancellations, a published message has
   exactly one copy (queued, in flight, handled or dropped), plus one for each republication
   that was stored although it was reported as failed; no handler panics.
   */
  lemma Conservation(names: Names, steps: seq<Step>, o: nat)
    requires names.request != names.deadLetter
    ensures var s := Reached(names, steps);
      && !s.crashed
      && Total(names, s.copies, CopyOf(o)) == if o in s.ledger then 1 + Count(s.duplicates, o) else 0
  {
    var s := Reached(names, steps);
    ReachedInv(names, false, steps);
    NamesKept(Initial(names), steps);
    if o !in s.ledger {
      UnknownOrigin(s, false, o, CopyOf(o));
    }
  }

  predicate Reports(step: Step) {
    step.Finish? ==> step.world.publish != Unconfirmed
  }

  lemma {:induction false} NoDuplicates(s: System, steps: seq<Step>)
    requires forall i :: 0 <= i < |steps| ==> Reports(steps[i])
    requires s.duplicates == []
    ensures Exec(s, steps).duplicates == []
    decreases |steps|
  {
    if steps != [] {
      var s' := if Enabled(s, steps[0]) then Next(s, steps[0]) else s;
      ReportedStep(s, steps[0]);
      NoDuplicates(s', steps[1..]);
    }
  }

  lemma ReportedStep(s: System, step: Step)
    requires Enabled(s, step) ==> Reports(step)
    ensures Enabled(s, step) ==> Next(s, step).duplicates == s.duplicates
  {
    if Enabled(s, step) && step.Finish? {
      var m := Queue(s.copies.inFlight, step.topic)[step.i];
      var failure := Failure(s.names, step.topic, m.data, step.notify, step.schedulers);
      SentMeansAcked(m, failure, step.world, s.names.deadLetter);
    }
  }

  /** When failures are reported truly, a delivery that sent something was acknowledged. */
  lemma SentMeansAcked(m: Message, failure: Option<string>, world: World, deadLetter: string)
    requires world.publish != Unconfirmed
    ensures var e := Deliver(m, failure, world, deadLetter); e.sent.Some? ==> e.settled == Acked
  {
  }

  /**
   Without misreported publications there is exactly one copy, and at
   most max + 1 request deliveries end in an Ack.
   */
  lemma ExactlyOneCopy(names: Names, steps: seq<Step>, o: nat)
    requires names.request != names.deadLetter
    requires forall i :: 0 <= i < |steps| ==> Reports(steps[i])
    ensures var s := Reached(names, steps);
      o in s.ledger ==>
        && Total(names, s.copies, CopyOf(o)) == 1
        && Count(s.acks, o) <= s.ledger[o].max + 1
  {
    Conservation(names, steps, o);
    NoDuplicates(Initial(names), steps);
    ReachedInv(names, false, steps);
    var s := Reached(names, steps);
    assert o in s.ledger ==> BoundedAt(s, o, s.ledger[o].max);
  }

  lemma AllowanceIs(max: nat, d: nat)
    ensures Allowance(max, d) == (max + 1) * (d + 1)
  {
    if d > 0 {
      AllowanceIs(max, d - 1);
      assert (max + 1) * (d + 1) == (max + 1) * d + (max + 1);
    }
  }

  /** In general each misreported publication can add at most max + 1 further acknowledged request deliveries. */
  lemma BoundedRetry(names: Names, steps: seq<Step>, o: nat)
    requires names.request != names.deadLetter
    ensures var s := Reached(names, steps);
      o in s.ledger ==> Count(s.acks, o) <= (s.ledger[o].max + 1) * (Count(s.duplicates, o) + 1)
  {
    ReachedAccounted(names, steps);
    if o in Reached(names, steps).ledger {
      WithinAllowance(Reached(names, steps), o);
    }
  }

  lemma ReachedAccounted(names: Names, steps: seq<Step>)
    requires names.request != names.deadLetter
    ensures Accounted(Reached(names, steps))
  {
    ReachedInv(names, false, steps);
  }

  lemma WithinAllowance(s: System, o: nat)
    requires Accounted(s) && o in s.ledger
    ensures Count(s.acks, o) <= (s.ledger[o].max + 1) * (Count(s.duplicates, o) + 1)
  {
    assert BoundedAt(s, o, s.ledger[o].max);
    AllowanceIs(s.ledger[o].max, Count(s.duplicates, o));
  }

  /** The one way to lose a message: a request delivery fails with retries left and is cancelled during the back-off. */
  predicate CancelledBackOff(s: System, step: Step)
    requires Enabled(s, step)
  {
    && step.Finish? && step.topic == s.names.request && step.world.cancelled
    && var m := Queue(s.copies.inFlight, step.topic)[step.i];
      && RequestHandler(m.data, step.notify).Some?
      && Origin(m) in s.ledger && Wraps(m) < s.ledger[Origin(m)].max
  }

  lemma LostIffCancelled(s: System, wired: bool, step: Step)
    requires Inv(s, wired) && Enabled(s, step) && (wired ==> Wired(step))
    ensures Next(s, step).copies.dropped != s.copies.dropped <==> CancelledBackOff(s, step)
  {
    if step.Finish? {
      var m := Queue(s.copies.inFlight, step.topic)[step.i];
      var failure := Failure(s.names, step.topic, m.data, step.notify, step.schedulers);
      DropsIffCancelled(s, wired, step, m, failure);
      FinishDrops(s, step, m, failure.Some?, Deliver(m, failure, step.world, s.names.deadLetter));
    }
  }

  lemma DropsIffCancelled(s: System, wired: bool, step: Step, m: Message, failure: Option<string>)
    requires WellPlaced(s, wired) && Enabled(s, step) && step.Finish?
        && m == Queue(s.copies.inFlight, step.topic)[step.i]
    requires failure == Failure(s.names, step.topic, m.data, step.notify, step.schedulers)
    ensures var e := Deliver(m, failure, step.world, s.names.deadLetter);
      (e.settled == Acked && failure.Some? && e.sent.None?) <==> CancelledBackOff(s, step)
  {
    TakeFlyingPlaced(s.names, s.ledger, s.copies, wired, step.topic, step.i);
    if step.topic == s.names.request {
      RequestLoss(s.names, s.ledger, m, step.notify, step.world, s.nextId);
    } else if failure.Some? {
      ArchiveEffect(s.names, s.ledger, m, failure.value, step.world, s.nextId);
    }
  }

  lemma RequestLoss(names: Names, ledger: map<nat, Original>, m: Message, notify: Option<string>, world: World, id: nat)
    requires Requesting(names, ledger, m)
    ensures var failure := RequestHandler(m.data, notify);
      var e := Deliver(m, failure, world, names.deadLetter);
      (e.settled == Acked && e.sent.None? && failure.Some?)
      <==> (world.cancelled && failure.Some? && Wraps(m) < ledger[Origin(m)].max)
  {
    match RequestHandler(m.data, notify)
    case None =>
    case Some(error) =>
      if Wraps(m) < ledger[Origin(m)].max {
        RetryEffect(names, ledger, m, error, world, id);
      } else {
        ArchiveEffect(names, ledger, m, error, world, id);
      }
  }

  lemma FinishDrops(s: System, step: Step, m: Message, failed: bool, e: Effect)
    requires Enabled(s, step) && step.Finish? && m == Queue(s.copies.inFlight, step.topic)[step.i]
    requires var failure := Failure(s.names, step.topic, m.data, step.notify, step.schedulers);
      failed == failure.Some? && e == Deliver(m, failure, step.world, s.names.deadLetter)
    ensures Next(s, step).copies.dropped
         == if e.settled == Acked && failed && e.sent.None? then Enqueue(s.copies.dropped, step.topic, m)
             else s.copies.dropped
    ensures |Queue(Enqueue(s.copies.dropped, step.topic, m), step.topic)| == |Queue(s.copies.dropped, step.topic)| + 1
  {
    ArriveDrops(s.copies.(inFlight := Take(s.copies.inFlight, step.topic, step.i)), s.nextId, step.topic, m, failed, e);
  }

  lemma ArriveDrops(c: Copies, id: nat, t: string, m: Message, failed: bool, e: Effect)
    ensures Arrive(c, id, t, m, failed, e).dropped
         == if e.settled == Acked && failed && e.sent.None? then Enqueue(c.dropped, t, m) else c.dropped
  {
  }

  /** No delivery of the run is cancelled during its back-off. */
  predicate Uncancelled(step: Step) {
    step.Finish? ==> !step.world.cancelled
  }

  lemma {:induction false} NothingDropped(s: System, steps: seq<Step>)
    requires Inv(s, false) && forall i :: 0 <= i < |steps| ==> Uncancelled(steps[i])
    ensures Exec(s, steps).copies.dropped == s.copies.dropped
    decreases |steps|
  {
    if steps != [] {
      if Enabled(s, steps[0]) {
        assert Uncancelled(steps[0]);
        LostIffCancelled(s, false, steps[0]);
        StepKeepsInv(s, false, steps[0]);
        NothingDropped(Next(s, steps[0]), steps[1..]);
      } else {
        NothingDropped(s, steps[1..]);
      }
    }
  }

  /** Without cancellations every copy ever made is live or handled: none is dropped. */
  lemma NoCancellationNoLoss(names: Names, steps: seq<Step>)
    requires names.request != names.deadLetter
    requires forall i :: 0 <= i < |steps| ==> Uncancelled(steps[i])
    ensures Reached(names, steps).copies.dropped == map[]
  {
    InitialInv(names, false);
    NothingDropped(Initial(names), steps);
  }

  // ----- envelopes and counters -----

  /**
   In every reachable state a message on the request topic is wrapped exactly `retry_count` times, never
   more than its limit; an archived one carries the limit as its counter and is wrapped at least once more
   (exactly once more in the wired deployment); unwrapping gives the request first published under its origin.
   */
  lemma Envelopes(names: Names, wired: bool, steps: seq<Step>, p: Place, i: nat)
    requires names.request != names.deadLetter && (wired ==> AllWired(steps))
    requires Subscribed(names, p.topic) && i < |At(Reached(names, steps).copies, p)|
    ensures var s := Reached(names, steps);
      var m := At(s.copies, p)[i];
      && Origin(m) in s.ledger && Root(m) == s.ledger[Origin(m)].request
      && var max := s.ledger[Origin(m)].max;
        && (p.topic == names.request ==> Wraps(m) <= max && CounterIs(m.attributes, Wraps(m)))
        && (p.topic == names.deadLetter ==> Wraps(m) >= max + 1 && CounterIs(m.attributes, max))
        && (p.topic == names.deadLetter && wired ==> Wraps(m) == max + 1)
  {
    var s := Reached(names, steps);
    ReachedInv(names, wired, steps);
    NamesKept(Initial(names), steps);
    assert AllFit(s.names, s.ledger, wired, p, At(s.copies, p));
  }

  /**
   A failed request delivery that is not cancelled and not refused sends its message to the dead-letter
   topic exactly when its counter has reached the limit, and back to the request topic otherwise.
   */
  lemma ArchivedIffExhausted(names: Names, ledger: map<nat, Original>, m: Message, error: string, world: World)
    requires names.request != names.deadLetter && Requesting(names, ledger, m)
    requires !world.cancelled && world.publish != Refused
    ensures var e := Deliver(m, Some(error), world, names.deadLetter);
      && e.sent.Some?
      && (e.sent.value.topic == names.deadLetter <==> Wraps(m) == ledger[Origin(m)].max)
      && (e.sent.value.topic == names.request <==> Wraps(m) < ledger[Origin(m)].max)
  {
    if Wraps(m) < ledger[Origin(m)].max {
      RetryEffect(names, ledger, m, error, world, 0);
    } else {
      ArchiveEffect(names, ledger, m, error, world, 0);
    }
  }

  /** A consumer is only ever notified of a message that was never retried: a retried delivery does not decode. */
  lemma RetriesNeverDeliver(names: Names, steps: seq<Step>, i: nat)
    requires names.request != names.deadLetter
    requires i < |At(Reached(names, steps).copies, Done(names.request))|
    ensures var m := At(Reached(names, steps).copies, Done(names.request))[i];
      m.data.Req? && "retry_count" !in m.attributes
  {
    var s := Reached(names, steps);
    ReachedInv(names, false, steps);
    NamesKept(Initial(names), steps);
    assert AllFit(s.names, s.ledger, false, Done(names.request), At(s.copies, Done(names.request)));
  }

  // ----- routing -----

  /** Messages exist only on the two subscribed topics. */
  lemma OnlySubscribedTopics(names: Names, steps: seq<Step>, t: string)
    requires names.request != names.deadLetter && t in Reached(names, steps).copies.topics
    ensures Subscribed(names, t)
  {
    ReachedInv(names, false, steps);
    NamesKept(Initial(names), steps);
  }

  /** Copies of an origin that are queued for, or handled by, the request subscription. */
  function OnRequestSide(names: Names, o: nat): Weight {
    (p: Place, m: Message) => if Origin(m) == o && p.topic == names.request && (p.Queued? || p.Flying?) then 1 else 0
  }

  /** Once no copy of a message is on the request side (for example because it was archived), none ever is again. */
  lemma {:induction false} NeverBack(s: System, steps: seq<Step>, o: nat)
    requires Inv(s, false) && o in s.ledger && Total(s.names, s.copies, OnRequestSide(s.names, o)) == 0
    ensures Total(s.names, Exec(s, steps).copies, OnRequestSide(s.names, o)) == 0
    decreases |steps|
  {
    if steps != [] {
      if Enabled(s, steps[0]) {
        StepKeepsInv(s, false, steps[0]);
        StepNotBack(s, steps[0], o);
        NeverBack(Next(s, steps[0]), steps[1..], o);
      } else {
        NeverBack(s, steps[1..], o);
      }
    }
  }

  lemma StepNotBack(s: System, step: Step, o: nat)
    requires WellPlaced(s, false) && Enabled(s, step)
    requires o in s.ledger && Total(s.names, s.copies, OnRequestSide(s.names, o)) == 0
    ensures Next(s, step).names == s.names && o in Next(s, step).ledger
    ensures Total(s.names, Next(s, step).copies, OnRequestSide(s.names, o)) == 0
  {
    match step
    case Publish(_, _, _) => PublishNotBack(s, step, o);
    case Pull(t, i) => MoveTotal(s, t, i, true, OnRequestSide(s.names, o));
    case Expire(t, i) => MoveTotal(s, t, i, false, OnRequestSide(s.names, o));
    case Finish(_, _, _, _, _) => FinishNotBack(s, step, o);
  }

  lemma PublishNotBack(s: System, step: Step, o: nat)
    requires Shape(s) && Enabled(s, step) && step.Publish?
    requires o in s.ledger && Total(s.names, s.copies, OnRequestSide(s.names, o)) == 0
    ensures Total(s.names, Next(s, step).copies, OnRequestSide(s.names, o)) == 0
  {
    PutTotal(s.names, s.copies, Queued(s.names.request), Fresh(s, step.request, step.max), OnRequestSide(s.names, o));
  }

  /** A delivery that was not on the request side leaves nothing there. */
  lemma SettleNotBack(s: System, c: Copies, t: string, m: Message, failed: bool, e: Effect, o: nat)
    requires Finishing(s, false, c, t, m, failed, e) && Total(s.names, s.copies, OnRequestSide(s.names, o)) == 0
    ensures Total(s.names, Settle(s, c, t, m, failed, e).copies, OnRequestSide(s.names, o)) == 0
  {
    var f := OnRequestSide(s.names, o);
    SettleMeasures(s, false, c, t, m, failed, e, o, f);
    assert Total(s.names, s.copies, f) == Total(s.names, c, f) + f(Flying(t), m);
    NothingBack(s.names, s.ledger, s.nextId, t, m, failed, e, o);
  }

  lemma NothingBack(names: Names, ledger: map<nat, Original>, id: nat, t: string, m: Message, failed: bool,
                    e: Effect, o: nat)
    requires Delivering(names, ledger, id, false, t, m, failed, e) && OnRequestSide(names, o)(Flying(t), m) == 0
    ensures ArriveWeight(id, t, m, failed, e, OnRequestSide(names, o)) == 0
  {
  }

  lemma FinishNotBack(s: System, step: Step, o: nat)
    requires WellPlaced(s, false) && Enabled(s, step) && step.Finish?
    requires Total(s.names, s.copies, OnRequestSide(s.names, o)) == 0
    ensures Total(s.names, Next(s, step).copies, OnRequestSide(s.names, o)) == 0
  {
    var t := step.topic;
    var m := Queue(s.copies.inFlight, t)[step.i];
    var failure := Failure(s.names, t, m.data, step.notify, step.schedulers);
    var e := Deliver(m, failure, step.world, s.names.deadLetter);
    FinishStarts(s, false, step);
    SettleNotBack(s, s.copies.(inFlight := Take(s.copies.inFlight, t, step.i)), t, m, failure.Some?, e, o);
  }

  /** Unwrapped copies of an origin that are queued for, or handled by, the request subscription. */
  function Unwrapped(names: Names, o: nat): Weight {
    (p: Place, m: Message) =>
      if Origin(m) == o && p.topic == names.request && (p.Queued? || p.Flying?) && Wraps(m) == 0 then 1 else 0
  }

  /** Copies of an origin whose consumer was notified. */
  function Notified(names: Names, o: nat): Weight {
    (p: Place, m: Message) => if Origin(m) == o && p.topic == names.request && p.Done? then 1 else 0
  }

  /** No unwrapped copy is left, and the consumer was notified of n copies. */
  predicate Settled(s: System, o: nat, n: nat) {
    Total(s.names, s.copies, Unwrapped(s.names, o)) == 0 && Total(s.names, s.copies, Notified(s.names, o)) == n
  }

  /**
   Once a message has been retried or archived, so that no unwrapped copy of it is left, its consumer is never
   notified of it again, whatever fails or is redelivered.
   */
  lemma {:induction false} NeverNotifiedAgain(s: System, steps: seq<Step>, o: nat, n: nat)
    requires Inv(s, false) && o in s.ledger && Settled(s, o, n)
    ensures Settled(Exec(s, steps), o, n)
    decreases |steps|
  {
    if steps != [] {
      if Enabled(s, steps[0]) {
        StepKeepsInv(s, false, steps[0]);
        StepNotNotified(s, steps[0], o, n);
        NeverNotifiedAgain(Next(s, steps[0]), steps[1..], o, n);
      } else {
        NeverNotifiedAgain(s, steps[1..], o, n);
      }
    }
  }

  lemma StepNotNotified(s: System, step: Step, o: nat, n: nat)
    requires WellPlaced(s, false) && Enabled(s, step) && o in s.ledger && Settled(s, o, n)
    ensures o in Next(s, step).ledger && Settled(Next(s, step), o, n)
  {
    match step
    case Publish(_, _, _) => PublishNotNotified(s, step, o, n);
    case Pull(_, _) => MoveNotNotified(s, step, o, n);
    case Expire(_, _) => MoveNotNotified(s, step, o, n);
    case Finish(_, _, _, _, _) => FinishNotNotified(s, step, o, n);
  }

  lemma MoveNotNotified(s: System, step: Step, o: nat, n: nat)
    requires s.names.request != s.names.deadLetter && Enabled(s, step) && (step.Pull? || step.Expire?)
        && Settled(s, o, n)
    ensures Settled(Next(s, step), o, n)
  {
    MoveTotal(s, step.topic, step.i, step.Pull?, Unwrapped(s.names, o));
    MoveTotal(s, step.topic, step.i, step.Pull?, Notified(s.names, o));
  }

  lemma PublishNotNotified(s: System, step: Step, o: nat, n: nat)
    requires Shape(s) && Enabled(s, step) && step.Publish? && o in s.ledger && Settled(s, o, n)
    ensures Settled(Next(s, step), o, n)
  {
    var m := Fresh(s, step.request, step.max);
    PutTotal(s.names, s.copies, Queued(s.names.request), m, Unwrapped(s.names, o));
    PutTotal(s.names, s.copies, Queued(s.names.request), m, Notified(s.names, o));
  }

  lemma WrappedNotNotified(names: Names, ledger: map<nat, Original>, id: nat, t: string, m: Message, failed: bool,
                           e: Effect, o: nat)
    requires Delivering(names, ledger, id, false, t, m, failed, e) && Unwrapped(names, o)(Flying(t), m) == 0
    ensures ArriveWeight(id, t, m, failed, e, Unwrapped(names, o)) == 0
    ensures ArriveWeight(id, t, m, failed, e, Notified(names, o)) == 0 == Notified(names, o)(Flying(t), m)
  {
  }

  lemma SettleNotNotified(s: System, c: Copies, t: string, m: Message, failed: bool, e: Effect, o: nat, n: nat)
    requires Finishing(s, false, c, t, m, failed, e) && Settled(s, o, n)
    ensures Settled(Settle(s, c, t, m, failed, e), o, n)
  {
    var f := Unwrapped(s.names, o);
    assert Total(s.names, s.copies, f) == Total(s.names, c, f) + f(Flying(t), m);
    WrappedNotNotified(s.names, s.ledger, s.nextId, t, m, failed, e, o);
    SettleMeasures(s, false, c, t, m, failed, e, o, f);
    SettleMeasures(s, false, c, t, m, failed, e, o, Notified(s.names, o));
  }

  lemma FinishNotNotified(s: System, step: Step, o: nat, n: nat)
    requires WellPlaced(s, false) && Enabled(s, step) && step.Finish? && Settled(s, o, n)
    ensures Settled(Next(s, step), o, n)
  {
    var t := step.topic;
    var m := Queue(s.copies.inFlight, t)[step.i];
    var failure := Failure(s.names, t, m.data, step.notify, step.schedulers);
    var e := Deliver(m, failure, step.world, s.names.deadLetter);
    FinishStarts(s, false, step);
    SettleNotNotified(s, s.copies.(inFlight := Take(s.copies.inFlight, t, step.i)), t, m, failure.Some?, e, o, n);
  }

  /** The wired store makes the dead-letter handler succeed on every envelope. */
  lemma WiredHandlerSucceeds(names: Names, ledger: map<nat, Original>, m: Message, world: World)
    requires Archived(names, ledger, m, true)
    ensures DeadLetterHandler(m.data, WIRED_SCHEDULERS) == None
    ensures Deliver(m, None, world, names.deadLetter) == Effect(Acked, None, m.attributes, false)
  {
    assert m.data.Env?;
  }

  lemma HandledIsDone(s: System, c: Copies, t: string, m: Message)
    ensures Settle(s, c, t, m, false, Effect(Acked, None, m.attributes, false)).copies == Put(c, Done(t), m)
  {
  }

  /** In the wired deployment the first finished delivery of an archived message acknowledges it for good. */
  lemma DeadLetterHandledAtOnce(s: System, step: Step)
    requires Inv(s, true) && Enabled(s, step) && step.Finish? && step.topic == s.names.deadLetter && Wired(step)
    ensures var m := Queue(s.copies.inFlight, step.topic)[step.i];
      Next(s, step).copies == Put(s.copies.(inFlight := Take(s.copies.inFlight, step.topic, step.i)),
          Done(step.topic), m)
  {
    var m := ArchivedInFlight(s, step);
    WiredHandlerSucceeds(s.names, s.ledger, m, step.world);
    HandledIsDone(s, s.copies.(inFlight := Take(s.copies.inFlight, step.topic, step.i)), step.topic, m);
    assert Failure(s.names, step.topic, m.data, step.notify, step.schedulers) == None;
  }

  lemma ArchivedInFlight(s: System, step: Step) returns (m: Message)
    requires WellPlaced(s, true) && Enabled(s, step) && step.Finish? && step.topic == s.names.deadLetter
    ensures m == Queue(s.copies.inFlight, step.topic)[step.i] && Archived(s.names, s.ledger, m, true)
  {
    m := Queue(s.copies.inFlight, step.topic)[step.i];
    TakeFlyingPlaced(s.names, s.ledger, s.copies, true, step.topic, step.i);
  }

  // ----- termination -----

  predicate Quiet(s: System) {
    && Queue(s.copies.topics, s.names.request) == [] && Queue(s.copies.topics, s.names.deadLetter) == []
    && Queue(s.copies.inFlight, s.names.request) == [] && Queue(s.copies.inFlight, s.names.deadLetter) == []
  }

  /** Copies whose delivery is over. */
  function Over(names: Names, c: Copies, o: nat): nat {
    Sum(Done(names.request), At(c, Done(names.request)), CopyOf(o))
    + Sum(Done(names.deadLetter), At(c, Done(names.deadLetter)), CopyOf(o))
    + Sum(Lost(names.request), At(c, Lost(names.request)), CopyOf(o))
  }

  /** When nothing is live, every published message was handled, dead-lettered or dropped, once per copy. */
  lemma QuietMeansOver(s: System, wired: bool, o: nat)
    requires Inv(s, wired) && Quiet(s) && o in s.ledger
    ensures Over(s.names, s.copies, o) == 1 + Count(s.duplicates, o)
  {
    assert ConservedAt(s, o);
    var lost := Lost(s.names.deadLetter);
    assert AllFit(s.names, s.ledger, wired, lost, At(s.copies, lost));
    SumZero(lost, At(s.copies, lost), CopyOf(o));
  }

  /** While a copy is live some smooth step is possible. */
  lemma SmoothProgress(s: System) returns (step: Step)
    requires !Quiet(s)
    ensures Enabled(s, step) && Smooth(step)
  {
    var t := if Queue(s.copies.topics, s.names.request) != [] || Queue(s.copies.inFlight, s.names.request) != []
             then s.names.request else s.names.deadLetter;
    if Queue(s.copies.topics, t) != [] {
      step := Pull(t, 0);
    } else {
      step := Finish(t, 0, None, WIRED_SCHEDULERS, World(false, Confirmed));
    }
  }

  /**
   From any reachable state of the wired deployment, smooth steps run out after at most `Remaining` of them,
   and can always be continued until nothing is live; then every copy has been handled or dropped.
   */
  lemma {:induction false} Drain(s: System) returns (steps: seq<Step>)
    requires Inv(s, true)
    ensures SmoothRun(s, steps) && |steps| <= Remaining(s) && Quiet(Exec(s, steps))
    decreases Remaining(s)
  {
    if Quiet(s) {
      steps := [];
    } else {
      var step := SmoothProgress(s);
      SmoothStep(s, step);
      var rest := Drain(Next(s, step));
      steps := [step] + rest;
      assert steps[1..] == rest;
    }
  }
}
