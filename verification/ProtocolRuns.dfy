/** Concrete runs: how a message is lost, and how a failed notification is made good. */
module ProtocolRuns {
  import opened Prelude
  import opened PubSub
  import opened Protocol
  import opened ProtocolTheorems

  /** A publish, a pull, and a failed notification with the given surroundings. */
  function FailedOnce(names: Names, request: Request, error: string, world: World): seq<Step> {
    [Publish(request, 1, Confirmed), Pull(names.request, 0), Finish(names.request, 0, Some(error), NotFound, world)]
  }

  /** The message in flight after the first two of these steps. */
  function InFlight(names: Names, request: Request): System {
    var m := Message(0, Req(request), InitialAttributes(names.request, 1));
    System(names, Copies(map[names.request := []], map[names.request := [m]], map[], map[]), 1, false,
        map[0 := Original(request, 1)], [], [])
  }

  lemma ExecCons(s: System, step: Step, rest: seq<Step>)
    requires Enabled(s, step)
    ensures Exec(s, [step] + rest) == Exec(Next(s, step), rest)
  {
    assert ([step] + rest)[1..] == rest;
  }

  lemma FirstDelivery(names: Names, request: Request, rest: seq<Step>)
    ensures Reached(names, [Publish(request, 1, Confirmed)] + ([Pull(names.request, 0)] + rest))
        == Exec(InFlight(names, request), rest)
  {
    var publish, pull := Publish(request, 1, Confirmed), Pull(names.request, 0);
    var m := Message(0, Req(request), InitialAttributes(names.request, 1));
    ExecCons(Initial(names), publish, [pull] + rest);
    var s1 := Next(Initial(names), publish);
    assert [] + [m] == [m];
    assert s1.copies.topics == map[names.request := [m]];
    ExecCons(s1, pull, rest);
    assert Remove([m], 0) == [];
    assert Next(s1, pull) == InFlight(names, request);
  }

  lemma FirstFailure(names: Names, request: Request, error: string, world: World)
    ensures var m := Message(0, Req(request), InitialAttributes(names.request, 1));
      var e := Deliver(m, Some(error), world, names.deadLetter);
      && (world.cancelled ==> e.settled == Acked && e.sent.None?)
      && (!world.cancelled ==> IsPublish(e, world.publish, names.request))
  {
    var m := Message(0, Req(request), InitialAttributes(names.request, 1));
    RetryEffect(names, map[0 := Original(request, 1)], m, error, world, 1);
  }

  /** A run that loses its message: a failed notification, cancelled during the back-off. */
  lemma CancelledRunLoses(names: Names, request: Request, error: string)
    requires names.request != names.deadLetter
    ensures var s := Reached(names, FailedOnce(names, request, error, World(true, Confirmed)));
      At(s.copies, Lost(names.request)) == [Message(0, Req(request), InitialAttributes(names.request, 1))]
  {
    var step := Finish(names.request, 0, Some(error), NotFound, World(true, Confirmed));
    FirstDelivery(names, request, [step]);
    assert FailedOnce(names, request, error, World(true, Confirmed))
        == [Publish(request, 1, Confirmed)] + ([Pull(names.request, 0)] + [step]);
    FirstFailure(names, request, "fetch consumer: " + error, World(true, Confirmed));
    ExecCons(InFlight(names, request), step, []);
    assert [step] + [] == [step];
  }

  /** A run in which a failed notification is made good: the republication is refused, the original offered again. */
  lemma RefusedRetryDelivers(names: Names, request: Request, error: string)
    requires names.request != names.deadLetter
    ensures var steps := FailedOnce(names, request, error, World(false, Refused))
        + [Pull(names.request, 0), Finish(names.request, 0, None, NotFound, World(false, Confirmed))];
      At(Reached(names, steps).copies, Done(names.request))
          == [Message(0, Req(request), InitialAttributes(names.request, 1))]
  {
    var t := names.request;
    var failed := Finish(t, 0, Some(error), NotFound, World(false, Refused));
    var pull, done := Pull(t, 0), Finish(t, 0, None, NotFound, World(false, Confirmed));
    var rest := [failed] + ([pull] + ([done] + []));
    FirstDelivery(names, request, rest);
    assert FailedOnce(names, request, error, World(false, Refused)) + [pull, done]
        == [Publish(request, 1, Confirmed)] + ([pull] + rest);
    RefusedIsOffered(names, request, error);
    ExecCons(InFlight(names, request), failed, [pull] + ([done] + []));
    OfferedIsDelivered(Next(InFlight(names, request), failed), request);
  }

  /** A request that waits alone is pulled and delivered. */
  lemma OfferedIsDelivered(s: System, request: Request)
    requires s.names.request != s.names.deadLetter
    requires var m := Message(0, Req(request), InitialAttributes(s.names.request, 1));
      && Queue(s.copies.topics, s.names.request) == [m]
      && Queue(s.copies.inFlight, s.names.request) == [] == Queue(s.copies.completed, s.names.request)
    ensures var t, m := s.names.request, Message(0, Req(request), InitialAttributes(s.names.request, 1));
      var rest := [Pull(t, 0)] + ([Finish(t, 0, None, NotFound, World(false, Confirmed))] + []);
      At(Exec(s, rest).copies, Done(t)) == [m]
  {
    var t, m := s.names.request, Message(0, Req(request), InitialAttributes(s.names.request, 1));
    var pull, done := Pull(t, 0), Finish(t, 0, None, NotFound, World(false, Confirmed));
    ExecCons(s, pull, [done] + []);
    var s' := Next(s, pull);
    assert Queue(s'.copies.inFlight, t) == [m];
    ExecCons(s', done, []);
  }

  lemma RefusedIsOffered(names: Names, request: Request, error: string)
    ensures var s := Next(InFlight(names, request),
        Finish(names.request, 0, Some(error), NotFound, World(false, Refused)));
      && s.names == names
      && Queue(s.copies.topics, names.request) == [Message(0, Req(request), InitialAttributes(names.request, 1))]
      && Queue(s.copies.inFlight, names.request) == [] == Queue(s.copies.completed, names.request)
  {
    FirstFailure(names, request, "fetch consumer: " + error, World(false, Refused));
  }
}
