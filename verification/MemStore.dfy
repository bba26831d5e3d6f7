/** The in-memory index over the catalogue (`internal/interstore/mem_store.go`). */
module MemStore {
  import opened Domain
  import opened Prelude
  import PubSub

  type Index = map<string, Event>

  /** The map built by inserting the events in order: a later event replaces an earlier one of the same name. */
  function IndexOf(events: seq<Event>): Index {
    if events == [] then map[] else IndexOf(events[..|events| - 1])[events[|events| - 1].name := events[|events| - 1]]
  }

  /** Linear search for the last event of a name. */
  function LastMatch(events: seq<Event>, name: string): Option<Event> {
    if events == [] then None
    else if events[|events| - 1].name == name then Some(events[|events| - 1])
    else LastMatch(events[..|events| - 1], name)
  }

  function Lookup(index: Index, name: string): Option<Event> {
    if name in index then Some(index[name]) else None
  }

  /** What the persistent store answers to a load. */
  datatype Load = Loaded(events: seq<Event>) | EventNotFound(events: seq<Event>) | LoadFailed

  /** The index after a load: a hard failure keeps the old one, `EventNotFound` still refreshes with what came along. */
  function AfterLoad(index: Index, load: Load): Index {
    if load.LoadFailed? then index else IndexOf(load.events)
  }

  class MemStore {
    var topicEvents: Index
    var retryTopics: Index

    constructor ()
      ensures topicEvents == map[] && retryTopics == map[]
    {
      topicEvents, retryTopics := map[], map[];
    }

    method LoadInMemStore(load: Load) returns (r: Result<()>)
      modifies this`topicEvents
      ensures r.Err? <==> load.LoadFailed?
      ensures topicEvents == AfterLoad(old(topicEvents), load)
    {
      if load.LoadFailed? {
        return Err("error loading events into in-memory store");
      }
      Refresh(load.events);
      return Ok(());
    }

    method Refresh(events: seq<Event>)
      modifies this`topicEvents
      ensures topicEvents == IndexOf(events)
    {
      var eventsMap: Index := map[];
      for i := 0 to |events|
        invariant eventsMap == IndexOf(events[..i])
      {
        eventsMap := eventsMap[events[i].name := events[i]];
        assert events[..i + 1][..i] == events[..i];
      }
      assert events[..|events|] == events;
      topicEvents := eventsMap;
    }

    method RefreshRetryTopics(events: seq<Event>)
      modifies this`retryTopics
      ensures retryTopics == IndexOf(events)
    {
      var retryMap: Index := map[];
      for i := 0 to |events|
        invariant retryMap == IndexOf(events[..i])
      {
        retryMap := retryMap[events[i].name := events[i]];
        assert events[..i + 1][..i] == events[..i];
      }
      assert events[..|events|] == events;
      retryTopics := retryMap;
    }

    method GetEvent(name: string) returns (r: Option<Event>)
      ensures r == Lookup(topicEvents, name)
    {
      if name in topicEvents {
        return Some(topicEvents[name]);
      }
      return None;
    }

    method GetAllSchedulers(state: string) returns (r: PubSub.Schedulers)
      ensures r == PubSub.WIRED_SCHEDULERS
    {
      return PubSub.NotFound;
    }
  }

  /** Looking a name up in the index is searching the loaded list for its last match. */
  lemma {:induction false} LookupIsLastMatch(events: seq<Event>, name: string)
    ensures Lookup(IndexOf(events), name) == LastMatch(events, name)
  {
    if events != [] {
      LookupIsLastMatch(events[..|events| - 1], name);
    }
  }

  /** The served event of a name is the one at the last position with that name; other names are not served. */
  lemma {:induction false} LookupIsLatest(events: seq<Event>, name: string, i: nat)
    ensures (forall j :: 0 <= j < |events| ==> events[j].name != name) ==> Lookup(IndexOf(events), name) == None
    ensures i < |events| && events[i].name == name && (forall j :: i < j < |events| ==> events[j].name != name) ==>
      Lookup(IndexOf(events), name) == Some(events[i])
  {
    if events != [] {
      LookupIsLatest(events[..|events| - 1], name, i);
    }
  }
}
