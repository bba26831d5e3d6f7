/**
 The `events` table and the statements that change and read it
 (`internal/interstore/postgres_store.go`, `deployment/tables.sql`).
 The database keeps names and ids unique; any statement may also fail and change nothing.
 */
module Catalogue {
  import opened Domain
  import opened Prelude

  datatype Row = Row(id: nat, name: string, serviceName: string, state: string, option: string,
                     consumers: seq<Consumer>, deleted: bool)

  predicate UniqueNames(rows: seq<Row>) {
    forall i, j :: 0 <= i < j < |rows| ==> rows[i].name != rows[j].name
  }

  predicate UniqueIds(rows: seq<Row>) {
    forall i, j :: 0 <= i < j < |rows| ==> rows[i].id != rows[j].id
  }

  predicate Sound(rows: seq<Row>) {
    UniqueNames(rows) && UniqueIds(rows)
  }

  function IndexOfName(rows: seq<Row>, name: string): (k: nat)
    ensures k <= |rows|
    ensures forall i :: 0 <= i < k ==> rows[i].name != name
    ensures k < |rows| ==> rows[k].name == name
  {
    if rows == [] || rows[0].name == name then 0 else 1 + IndexOfName(rows[1..], name)
  }

  function IndexOfId(rows: seq<Row>, id: nat): (k: nat)
    ensures k <= |rows|
    ensures forall i :: 0 <= i < k ==> rows[i].id != id
    ensures k < |rows| ==> rows[k].id == id
  {
    if rows == [] || rows[0].id == id then 0 else 1 + IndexOfId(rows[1..], id)
  }

  function EffectiveState(e: Event): string {
    if e.state == "" then "active" else e.state
  }

  // ----- statements as functions of the rows -----

  /** Saving: a new row, or new contents for the row of that name, which keeps its id and deletion mark. */
  function UpsertRows(rows: seq<Row>, e: Event, newId: nat): Result<seq<Row>> {
    var k := IndexOfName(rows, e.name);
    if k < |rows| then
      Ok(rows[k := rows[k].(serviceName := e.serviceName, state := EffectiveState(e), consumers := e.consumers,
          option := e.option)])
    else if IndexOfId(rows, newId) < |rows| then Err("duplicate key value violates unique constraint")
    else Ok(rows + [Row(newId, e.name, e.serviceName, EffectiveState(e), e.option, e.consumers, false)])
  }

  /** Disabling: the row of that id, unless already deleted, gets its deletion mark and the disabled state. */
  function DisableRows(rows: seq<Row>, id: nat): seq<Row> {
    var k := IndexOfId(rows, id);
    if k < |rows| && !rows[k].deleted then rows[k := rows[k].(state := "disabled", deleted := true)] else rows
  }

  /** Updating: the undeleted row of that id takes every field of the event, its name included. */
  function UpdateRows(rows: seq<Row>, e: Event): Result<seq<Row>> {
    var k := IndexOfId(rows, e.id);
    if k < |rows| && !rows[k].deleted then
      var n := IndexOfName(rows, e.name);
      if n < |rows| && n != k then Err("duplicate key value violates unique constraint")
      else Ok(rows[k := Row(e.id, e.name, e.serviceName, e.state, e.option, e.consumers, false)])
    else Ok(rows)
  }

  predicate Loadable(r: Row) {
    !r.deleted && r.state != "archived"
  }

  function LoadableRows(rows: seq<Row>): seq<Row> {
    if rows == [] then []
    else LoadableRows(rows[..|rows| - 1]) + if Loadable(rows[|rows| - 1]) then [rows[|rows| - 1]] else []
  }

  /** `ModelEvent.ToDomain`: the event type is not stored. */
  function ToDomain(r: Row): Event {
    Event(r.id, r.name, r.serviceName, r.state, "", r.option, r.consumers)
  }

  function ToDomains(rows: seq<Row>): seq<Event> {
    seq(|rows|, i requires 0 <= i < |rows| => ToDomain(rows[i]))
  }

  /** How a query over the table went: the rows it produced, or the statement or a row failing. */
  datatype Answer = Listed(rows: seq<Row>) | QueryFailed | ScanFailed(rows: seq<Row>, at: nat)

  /** The store. */
  class EventStore {
    var rows: seq<Row>

    predicate Valid()
      reads this
    {
      Sound(rows)
    }

    constructor ()
      ensures Valid() && rows == []
    {
      rows := [];
    }

    method Upsert(e: Event, newId: nat, fails: bool) returns (r: Result<()>)
      requires Valid()
      modifies this
      ensures Valid()
      ensures r.Ok? <==> !fails && UpsertRows(old(rows), e, newId).Ok?
      ensures rows == if r.Ok? then UpsertRows(old(rows), e, newId).value else old(rows)
    {
      UpsertSound(rows, e, newId);
      if fails {
        return Err("failed to upsert internal event");
      }
      var state := if e.state == "" then "active" else e.state;
      var k := IndexOfName(rows, e.name);
      if k < |rows| {
        rows := rows[k := rows[k].(serviceName := e.serviceName, state := state, consumers := e.consumers,
            option := e.option)];
      } else if IndexOfId(rows, newId) < |rows| {
        return Err("failed to upsert internal event");
      } else {
        rows := rows + [Row(newId, e.name, e.serviceName, state, e.option, e.consumers, false)];
      }
      return Ok(());
    }

    method DisabledEvent(id: nat, fails: bool) returns (r: Result<()>)
      requires Valid()
      modifies this
      ensures Valid()
      ensures r.Ok? <==> !fails
      ensures rows == if r.Ok? then DisableRows(old(rows), id) else old(rows)
    {
      if fails {
        return Err("failed to disable event");
      }
      var k := IndexOfId(rows, id);
      if k < |rows| && !rows[k].deleted {
        rows := rows[k := rows[k].(state := "disabled", deleted := true)];
      }
      return Ok(());
    }

    method UpdateEvent(e: Event, fails: bool) returns (r: Result<()>)
      requires Valid()
      modifies this
      ensures Valid()
      ensures r.Ok? <==> !fails && UpdateRows(old(rows), e).Ok?
      ensures rows == if r.Ok? then UpdateRows(old(rows), e).value else old(rows)
    {
      UpdateSound(rows, e);
      if fails {
        return Err("failed to update event");
      }
      var k := IndexOfId(rows, e.id);
      if k < |rows| && !rows[k].deleted {
        var n := IndexOfName(rows, e.name);
        if n < |rows| && n != k {
          return Err("failed to update event");
        }
        rows := rows[k := Row(e.id, e.name, e.serviceName, e.state, e.option, e.consumers, false)];
      }
      return Ok(());
    }

    /** The rows arrive in any order the database likes; the loop scans and converts them one by one. */
    method GetAllEvents(answer: Answer) returns (r: Result<seq<Event>>)
      requires answer.Listed? ==> multiset(answer.rows) == multiset(LoadableRows(rows))
      ensures r.Ok? <==> answer.Listed?
      ensures r.Ok? ==> r.value == ToDomains(answer.rows)
    {
      if answer.QueryFailed? {
        return Err("failed to query events");
      }
      var events := [];
      for i := 0 to |answer.rows|
        invariant events == ToDomains(answer.rows)[..i]
      {
        if answer.ScanFailed? && i == answer.at {
          return Err("failed to scan row");
        }
        events := events + [ToDomain(answer.rows[i])];
      }
      if answer.ScanFailed? {
        return Err("failed to iterate over events");
      }
      return Ok(events);
    }
  }

  // ----- what the statements do, row by row -----

  predicate HasName(rows: seq<Row>, name: string) {
    exists i :: 0 <= i < |rows| && rows[i].name == name
  }

  predicate HasId(rows: seq<Row>, id: nat) {
    exists i :: 0 <= i < |rows| && rows[i].id == id
  }

  /** Disabling marks the undeleted row of the id, and no other row. */
  lemma DisableExactly(rows: seq<Row>, id: nat)
    requires Sound(rows)
    ensures |DisableRows(rows, id)| == |rows|
    ensures forall i :: 0 <= i < |rows| ==>
      DisableRows(rows, id)[i]
      == if rows[i].id == id && !rows[i].deleted then rows[i].(state := "disabled", deleted := true) else rows[i]
  {
  }

  /**
   Saving rewrites the row of that name, which keeps its id and deletion mark, and no other row; without such a
   row it appends an active or given state under the new id, unless the id is taken.
   */
  lemma UpsertExactly(rows: seq<Row>, e: Event, newId: nat)
    requires Sound(rows)
    ensures UpsertRows(rows, e, newId).Ok? <==> HasName(rows, e.name) || !HasId(rows, newId)
    ensures HasName(rows, e.name) ==> |UpsertRows(rows, e, newId).value| == |rows|
    ensures HasName(rows, e.name) ==> forall i :: 0 <= i < |rows| ==>
      var state := if e.state == "" then "active" else e.state;
      UpsertRows(rows, e, newId).value[i]
      == if rows[i].name == e.name
         then Row(rows[i].id, e.name, e.serviceName, state, e.option, e.consumers, rows[i].deleted)
         else rows[i]
    ensures !HasName(rows, e.name) && !HasId(rows, newId) ==>
      var state := if e.state == "" then "active" else e.state;
      UpsertRows(rows, e, newId).value
      == rows + [Row(newId, e.name, e.serviceName, state, e.option, e.consumers, false)]
  {
  }

  /** An undeleted row of the event's id cannot take a name that another row has. */
  predicate NameTaken(rows: seq<Row>, e: Event) {
    exists i, j :: 0 <= i < |rows| && 0 <= j < |rows| && i != j
      && rows[i].id == e.id && !rows[i].deleted && rows[j].name == e.name
  }

  /** Updating rewrites the undeleted row of the id, and no other row, unless another row has the name. */
  lemma UpdateExactly(rows: seq<Row>, e: Event)
    requires Sound(rows)
    ensures UpdateRows(rows, e).Err? <==> NameTaken(rows, e)
    ensures UpdateRows(rows, e).Ok? ==> |UpdateRows(rows, e).value| == |rows|
    ensures UpdateRows(rows, e).Ok? ==> forall i :: 0 <= i < |rows| ==>
      UpdateRows(rows, e).value[i]
      == if rows[i].id == e.id && !rows[i].deleted
         then Row(e.id, e.name, e.serviceName, e.state, e.option, e.consumers, false)
         else rows[i]
  {
  }

  // ----- the statements keep names and ids unique -----

  lemma UpsertSound(rows: seq<Row>, e: Event, newId: nat)
    requires Sound(rows)
    ensures UpsertRows(rows, e, newId).Ok? ==> Sound(UpsertRows(rows, e, newId).value)
  {
  }

  lemma DisableSound(rows: seq<Row>, id: nat)
    requires Sound(rows)
    ensures Sound(DisableRows(rows, id))
  {
  }

  lemma UpdateSound(rows: seq<Row>, e: Event)
    requires Sound(rows)
    ensures UpdateRows(rows, e).Ok? ==> Sound(UpdateRows(rows, e).value)
  {
    var k, n := IndexOfId(rows, e.id), IndexOfName(rows, e.name);
    if k < |rows| && !rows[k].deleted && !(n < |rows| && n != k) {
      assert forall i :: 0 <= i < |rows| && i != k ==> rows[i].name != e.name;
    }
  }
}
