/** Every interleaving of catalogue writes and cache loads. */
module Serving {
  import opened Domain
  import opened Prelude
  import opened Catalogue
  import opened MemStore

  /**
   `loaded` is the event list of the latest refresh. `pending` holds the answers of queries whose load has
   not refreshed the cache yet: other statements and other loads may run in between.
   */
  datatype State = State(rows: seq<Row>, index: Index, loaded: seq<Event>, pending: seq<Load>)

  datatype Op =
    | Upsert(event: Event, newId: nat, fails: bool)
    | Update(event: Event, fails: bool)
    | Disable(id: nat, fails: bool)
    | Query(answer: seq<Row>)
    | QueryMissing
    | QueryFails
    | Refresh(i: nat)

  const EMPTY := State([], map[], [], [])

  /** A query sees the rows it selects in any order; a load refreshes after its query. */
  predicate Enabled(s: State, op: Op) {
    match op
    case Query(answer) => multiset(answer) == multiset(LoadableRows(s.rows))
    case Refresh(i) => i < |s.pending|
    case _ => true
  }

  function Next(s: State, op: Op): State
    requires Enabled(s, op)
  {
    match op
    case Upsert(event, newId, fails) =>
      var r := UpsertRows(s.rows, event, newId);
      if !fails && r.Ok? then s.(rows := r.value) else s
    case Update(event, fails) =>
      var r := UpdateRows(s.rows, event);
      if !fails && r.Ok? then s.(rows := r.value) else s
    case Disable(id, fails) => if fails then s else s.(rows := DisableRows(s.rows, id))
    case Query(answer) => s.(pending := s.pending + [Loaded(ToDomains(answer))])
    case QueryMissing => s.(pending := s.pending + [EventNotFound([])])
    case QueryFails => s.(pending := s.pending + [LoadFailed])
    case Refresh(i) => Refreshed(s, s.pending[i], s.pending[..i] + s.pending[i + 1..])
  }

  /** The end of a load: a hard failure leaves index and list alone. */
  function Refreshed(s: State, load: Load, pending: seq<Load>): State {
    State(s.rows, AfterLoad(s.index, load), if load.LoadFailed? then s.loaded else load.events, pending)
  }

  /** A run; steps that are not enabled are skipped. */
  function Exec(s: State, ops: seq<Op>): State
    decreases |ops|
  {
    if ops == [] then s else Exec(if Enabled(s, ops[0]) then Next(s, ops[0]) else s, ops[1..])
  }

  predicate Consistent(s: State) {
    Sound(s.rows) && s.index == IndexOf(s.loaded)
  }

  lemma StepConsistent(s: State, op: Op)
    requires Consistent(s) && Enabled(s, op)
    ensures Consistent(Next(s, op))
  {
    match op
    case Upsert(event, newId, _) => UpsertSound(s.rows, event, newId);
    case Update(event, _) => UpdateSound(s.rows, event);
    case Disable(id, _) => DisableSound(s.rows, id);
    case _ =>
  }

  lemma {:induction false} RunConsistent(s: State, ops: seq<Op>)
    requires Consistent(s)
    ensures Consistent(Exec(s, ops))
    decreases |ops|
  {
    if ops != [] {
      if Enabled(s, ops[0]) {
        StepConsistent(s, ops[0]);
      }
      RunConsistent(if Enabled(s, ops[0]) then Next(s, ops[0]) else s, ops[1..]);
    }
  }

  /**
   After any run names and ids are unique, and reading the cache is a
   last-match search of the list last refreshed from.
   */
  lemma CacheAgreement(ops: seq<Op>, name: string)
    ensures var s := Exec(EMPTY, ops);
      && Sound(s.rows)
      && Lookup(s.index, name) == LastMatch(s.loaded, name)
  {
    RunConsistent(EMPTY, ops);
    LookupIsLastMatch(Exec(EMPTY, ops).loaded, name);
  }

  /** A statement or query that fails changes neither the table nor the cache, not even when its load refreshes. */
  lemma FailuresChangeNothing(s: State, op: Op)
    requires Enabled(s, op)
    requires
      || ((op.Upsert? || op.Update? || op.Disable?) && op.fails)
      || op.QueryFails?
      || (op.Refresh? && s.pending[op.i].LoadFailed?)
    ensures Next(s, op).rows == s.rows && Next(s, op).index == s.index && Next(s, op).loaded == s.loaded
  {
  }

  // ----- a load mirrors the table -----

  lemma {:induction false} LoadableMember(rows: seq<Row>, r: Row)
    ensures r in LoadableRows(rows) <==> r in rows && Loadable(r)
  {
    if rows != [] {
      LoadableMember(rows[..|rows| - 1], r);
      assert r in rows <==> r in rows[..|rows| - 1] || r == rows[|rows| - 1];
    }
  }

  lemma {:induction false} IndexMember(events: seq<Event>, name: string)
    requires forall i, j :: 0 <= i < j < |events| ==> events[i].name != events[j].name
    ensures forall e :: e in events && e.name == name ==> name in IndexOf(events) && IndexOf(events)[name] == e
    ensures name in IndexOf(events) ==> IndexOf(events)[name] in events && IndexOf(events)[name].name == name
  {
    if events != [] {
      IndexMember(events[..|events| - 1], name);
      assert forall e :: e in events <==> e in events[..|events| - 1] || e == events[|events| - 1];
    }
  }

  /** Rows with unique names stay so in any order and under selection. */
  lemma {:induction false} LoadableUnique(rows: seq<Row>)
    requires Sound(rows)
    ensures Sound(LoadableRows(rows))
  {
    if rows != [] {
      var init, last := rows[..|rows| - 1], rows[|rows| - 1];
      LoadableUnique(init);
      forall r | r in LoadableRows(init)
        ensures r in init
      {
        LoadableMember(init, r);
      }
      var kept := LoadableRows(init);
      forall i | 0 <= i < |kept|
        ensures kept[i].name != last.name && kept[i].id != last.id
      {
        assert kept[i] in init;
      }
    }
  }

  lemma {:induction false} PermutationUnique(a: seq<Row>, b: seq<Row>)
    requires Sound(a) && multiset(a) == multiset(b)
    ensures Sound(b)
  {
    forall i, j | 0 <= i < j < |b|
      ensures b[i].name != b[j].name && b[i].id != b[j].id
    {
      var x, y := TwoPlaces(a, b, i, j);
    }
  }

  lemma WithoutOne(rows: seq<Row>, i: nat)
    requires i < |rows|
    ensures multiset(rows[..i] + rows[i + 1..]) == multiset(rows) - multiset{rows[i]}
  {
    assert rows == rows[..i] + [rows[i]] + rows[i + 1..];
  }

  lemma StillThere(rows: seq<Row>, i: nat, j: nat)
    requires i < j < |rows|
    ensures rows[j] in multiset(rows) - multiset{rows[i]}
  {
    WithoutOne(rows, i);
    var rest := rows[..i] + rows[i + 1..];
    assert rest[j - 1] == rows[j] && rest[j - 1] in multiset(rest);
  }

  lemma OtherPlace(rows: seq<Row>, x: nat, row: Row) returns (y: nat)
    requires x < |rows| && row in rows[..x] + rows[x + 1..]
    ensures y < |rows| && y != x && rows[y] == row
  {
    var rest := rows[..x] + rows[x + 1..];
    var z :| 0 <= z < |rest| && rest[z] == row;
    y := if z < x then z else z + 1;
  }

  /** Two positions of b hold rows found at two different positions of a. */
  lemma TwoPlaces(a: seq<Row>, b: seq<Row>, i: nat, j: nat) returns (x: nat, y: nat)
    requires multiset(a) == multiset(b) && i < j < |b|
    ensures x < |a| && y < |a| && x != y && a[x] == b[i] && a[y] == b[j]
  {
    assert b[i] in multiset(b);
    x :| 0 <= x < |a| && a[x] == b[i];
    StillThere(b, i, j);
    WithoutOne(a, x);
    assert b[j] in multiset(a[..x] + a[x + 1..]);
    y := OtherPlace(a, x, b[j]);
  }

  lemma AnswerMembers(rows: seq<Row>, answer: seq<Row>)
    requires multiset(answer) == multiset(LoadableRows(rows))
    ensures forall r :: r in answer <==> r in rows && Loadable(r)
  {
    forall r
      ensures r in answer <==> r in rows && Loadable(r)
    {
      LoadableMember(rows, r);
      assert r in answer <==> r in multiset(answer);
      assert r in LoadableRows(rows) <==> r in multiset(LoadableRows(rows));
    }
  }

  lemma DomainMembers(answer: seq<Row>)
    ensures forall r :: r in answer ==> ToDomain(r) in ToDomains(answer)
    ensures forall e :: e in ToDomains(answer) ==> exists r :: r in answer && ToDomain(r) == e
  {
    forall r | r in answer
      ensures ToDomain(r) in ToDomains(answer)
    {
      var i :| 0 <= i < |answer| && answer[i] == r;
      assert ToDomains(answer)[i] == ToDomain(r);
    }
    forall e | e in ToDomains(answer)
      ensures exists r :: r in answer && ToDomain(r) == e
    {
      var i :| 0 <= i < |answer| && ToDomains(answer)[i] == e;
      assert answer[i] in answer;
    }
  }

  /** The rows of an answer have unique names, so the index finds each of them. */
  lemma AnswerIndexed(rows: seq<Row>, answer: seq<Row>, name: string)
    requires Sound(rows) && multiset(answer) == multiset(LoadableRows(rows))
    ensures forall e :: e in ToDomains(answer) && e.name == name ==> Lookup(IndexOf(ToDomains(answer)), name) == Some(e)
    ensures name in IndexOf(ToDomains(answer)) ==>
      IndexOf(ToDomains(answer))[name] in ToDomains(answer) && IndexOf(ToDomains(answer))[name].name == name
  {
    LoadableUnique(rows);
    PermutationUnique(LoadableRows(rows), answer);
    IndexMember(ToDomains(answer), name);
  }

  /** The index that a load of this answer installs. */
  function Installed(answer: seq<Row>): Index {
    IndexOf(ToDomains(answer))
  }

  /**
   A load's index mirrors the table as its query saw it, whatever order the rows came in: it serves a name
   if and only if some row of that name is neither deleted nor archived, and then serves that row.
   */
  lemma LoadMirrorsTable(s: State, answer: seq<Row>, name: string)
    requires Sound(s.rows) && Enabled(s, Query(answer))
    ensures var index := Installed(answer);
      && (forall r :: r in s.rows && !r.deleted && r.state != "archived" && r.name == name ==>
            Lookup(index, name) == Some(ToDomain(r)))
      && (Lookup(index, name).Some? ==>
            exists r :: r in s.rows && !r.deleted && r.state != "archived" && r.name == name
                        && Lookup(index, name) == Some(ToDomain(r)))
  {
    AnswerIndexed(s.rows, answer, name);
    AnswerMembers(s.rows, answer);
    DomainMembers(answer);
  }

  /** Two orders of the same rows give the same index. */
  lemma LoadOrderIrrelevant(s: State, a: seq<Row>, b: seq<Row>)
    requires Sound(s.rows) && Enabled(s, Query(a)) && Enabled(s, Query(b))
    ensures Installed(a) == Installed(b)
  {
    var x, y := Installed(a), Installed(b);
    forall name
      ensures Lookup(x, name) == Lookup(y, name)
    {
      LoadMirrorsTable(s, a, name);
      LoadMirrorsTable(s, b, name);
    }
    assert forall n :: n in x <==> Lookup(x, n).Some?;
    assert forall n :: n in y <==> Lookup(y, n).Some?;
    assert forall n :: n in x ==> Lookup(x, n) == Some(x[n]);
    assert forall n :: n in y ==> Lookup(y, n) == Some(y[n]);
  }

  // ----- identity and tombstones -----

  /** Rows are never removed or moved, no statement changes an id, and a deleted row keeps its name and its mark. */
  lemma RowsPersist(s: State, op: Op, i: nat)
    requires Sound(s.rows) && Enabled(s, op) && i < |s.rows|
    ensures var rows := Next(s, op).rows;
      && |s.rows| <= |rows|
      && rows[i].id == s.rows[i].id
      && (s.rows[i].deleted ==> rows[i].deleted && rows[i].name == s.rows[i].name)
      && (op.Upsert? ==> rows[i].name == s.rows[i].name && rows[i].deleted == s.rows[i].deleted)
  {
  }

  /** A deleted row is a permanent tombstone. */
  lemma {:induction false} TombstoneForever(s: State, ops: seq<Op>, i: nat)
    requires Consistent(s) && i < |s.rows| && s.rows[i].deleted
    ensures var rows := Exec(s, ops).rows;
      i < |rows| && rows[i].deleted && rows[i].id == s.rows[i].id && rows[i].name == s.rows[i].name
    decreases |ops|
  {
    if ops != [] {
      if Enabled(s, ops[0]) {
        StepConsistent(s, ops[0]);
        RowsPersist(s, ops[0], i);
      }
      TombstoneForever(if Enabled(s, ops[0]) then Next(s, ops[0]) else s, ops[1..], i);
    }
  }

  /** Neither the name nor the id of the row occurs in the list. */
  predicate Forgets(events: seq<Event>, row: Row) {
    forall e :: e in events ==> e.name != row.name && e.id != row.id
  }

  predicate LoadForgets(load: Load, row: Row) {
    load.LoadFailed? || Forgets(load.events, row)
  }

  /** Every load under way asked after the deletion. */
  predicate PendingForget(s: State, i: nat) {
    i < |s.rows| && s.rows[i].deleted && forall p :: 0 <= p < |s.pending| ==> LoadForgets(s.pending[p], s.rows[i])
  }

  /** The cache serves neither the name nor the id of a deleted row, and no load under way can bring them back. */
  predicate Gone(s: State, i: nat) {
    PendingForget(s, i) && Forgets(s.loaded, s.rows[i])
  }

  lemma {:induction false} IndexFromEvents(events: seq<Event>, name: string)
    ensures name in IndexOf(events) ==> IndexOf(events)[name] in events && IndexOf(events)[name].name == name
  {
    if events != [] {
      IndexFromEvents(events[..|events| - 1], name);
    }
  }

  /** What `Gone` means for a caller. */
  lemma GoneIsNotServed(s: State, i: nat, name: string)
    requires Consistent(s) && Gone(s, i)
    ensures name == s.rows[i].name ==> Lookup(s.index, name) == None
    ensures Lookup(s.index, name).Some? ==> Lookup(s.index, name).value.id != s.rows[i].id
  {
    IndexFromEvents(s.loaded, name);
  }

  lemma QueryForgets(s: State, answer: seq<Row>, i: nat)
    requires Sound(s.rows) && i < |s.rows| && s.rows[i].deleted && Enabled(s, Query(answer))
    ensures Forgets(ToDomains(answer), s.rows[i])
  {
    AnswerMembers(s.rows, answer);
    DomainMembers(answer);
    forall e | e in ToDomains(answer)
      ensures e.name != s.rows[i].name && e.id != s.rows[i].id
    {
      var r :| r in answer && ToDomain(r) == e;
      var j :| 0 <= j < |s.rows| && s.rows[j] == r;
      assert j != i;
    }
  }

  /** A load whose query came after the deletion makes the row gone, if no older load is still under way. */
  lemma LoadMakesGone(s: State, answer: seq<Row>, i: nat)
    requires Sound(s.rows) && PendingForget(s, i) && Enabled(s, Query(answer))
    ensures var s1 := Next(s, Query(answer));
      Enabled(s1, Refresh(|s.pending|)) && Gone(Next(s1, Refresh(|s.pending|)), i)
  {
    QueryForgets(s, answer, i);
    var s1 := Next(s, Query(answer));
    assert s1.pending[..|s.pending|] + s1.pending[|s.pending| + 1..] == s.pending;
  }

  lemma StepKeepsGone(s: State, op: Op, i: nat)
    requires Consistent(s) && Gone(s, i) && Enabled(s, op)
    ensures Gone(Next(s, op), i)
  {
    RowsPersist(s, op, i);
    if op.Query? {
      QueryForgets(s, op.answer, i);
    }
  }

  /** Once gone, no later statement or load, however interleaved, makes the deleted name or id served again. */
  lemma {:induction false} NeverServedAgain(s: State, ops: seq<Op>, i: nat)
    requires Consistent(s) && Gone(s, i)
    ensures Gone(Exec(s, ops), i)
    decreases |ops|
  {
    if ops != [] {
      if Enabled(s, ops[0]) {
        StepConsistent(s, ops[0]);
        StepKeepsGone(s, ops[0], i);
        NeverServedAgain(Next(s, ops[0]), ops[1..], i);
      } else {
        NeverServedAgain(s, ops[1..], i);
      }
    }
  }

  lemma {:induction false} IndexHasIff(events: seq<Event>, name: string)
    ensures name in IndexOf(events) <==> exists e :: e in events && e.name == name
  {
    if events != [] {
      IndexHasIff(events[..|events| - 1], name);
      assert forall e :: e in events <==> e in events[..|events| - 1] || e == events[|events| - 1];
    }
  }

  /** Some event of that name is in the list. */
  predicate Mentions(events: seq<Event>, name: string) {
    exists e :: e in events && e.name == name
  }

  /** The name occurs in the list last refreshed from, or in an answer of a load under way. */
  predicate CanReturn(s: State, name: string) {
    || Mentions(s.loaded, name)
    || exists p :: 0 <= p < |s.pending| && !s.pending[p].LoadFailed? && Mentions(s.pending[p].events, name)
  }

  /** A run that serves a name which can return: none at all, or one refresh. */
  lemma ReturningRun(s: State, name: string) returns (ops: seq<Op>)
    requires Consistent(s) && CanReturn(s, name)
    ensures |ops| <= 1 && Lookup(Exec(s, ops).index, name).Some? && Exec(s, ops).rows == s.rows
  {
    if Mentions(s.loaded, name) {
      ops := [];
      IndexHasIff(s.loaded, name);
    } else {
      var p :| 0 <= p < |s.pending| && !s.pending[p].LoadFailed? && Mentions(s.pending[p].events, name);
      ops := [Refresh(p)];
      IndexHasIff(s.pending[p].events, name);
      ExecCons(s, Refresh(p), []);
      assert [Refresh(p)] + [] == ops;
    }
  }

  /**
   The name of a deleted row is served in some continuation exactly
   when it is still in the cache or under way to it.
   */
  lemma ServedAgainIff(s: State, i: nat)
    requires Consistent(s) && i < |s.rows| && s.rows[i].deleted
    ensures CanReturn(s, s.rows[i].name) <==> exists ops: seq<Op> :: Lookup(Exec(s, ops).index, s.rows[i].name).Some?
  {
    var name := s.rows[i].name;
    if CanReturn(s, name) {
      var ops := ReturningRun(s, name);
    }
    if ops: seq<Op> :| Lookup(Exec(s, ops).index, name).Some? {
      if !CanReturn(s, name) {
        NameNeverReturns(s, ops, i);
      }
    }
  }

  lemma StepKeepsAway(s: State, op: Op, i: nat)
    requires Consistent(s) && i < |s.rows| && s.rows[i].deleted && Enabled(s, op) && !CanReturn(s, s.rows[i].name)
    ensures !CanReturn(Next(s, op), s.rows[i].name)
  {
    if op.Query? {
      QueryForgets(s, op.answer, i);
    }
  }

  lemma {:induction false} NameNeverReturns(s: State, ops: seq<Op>, i: nat)
    requires Consistent(s) && i < |s.rows| && s.rows[i].deleted && !CanReturn(s, s.rows[i].name)
    ensures Lookup(Exec(s, ops).index, s.rows[i].name) == None
    decreases |ops|
  {
    if ops == [] {
      IndexHasIff(s.loaded, s.rows[i].name);
    } else if Enabled(s, ops[0]) {
      StepConsistent(s, ops[0]);
      RowsPersist(s, ops[0], i);
      StepKeepsAway(s, ops[0], i);
      NameNeverReturns(Next(s, ops[0]), ops[1..], i);
    } else {
      NameNeverReturns(s, ops[1..], i);
    }
  }

  lemma ExecCons(s: State, op: Op, rest: seq<Op>)
    requires Enabled(s, op)
    ensures Exec(s, [op] + rest) == Exec(Next(s, op), rest)
  {
    assert ([op] + rest)[1..] == rest;
  }

  /** The row that saving an event inserts under id 1. */
  function FirstRow(e: Event): Row {
    Row(1, e.name, e.serviceName, e.state, e.option, e.consumers, false)
  }

  /** That row after its deletion. */
  function FirstRowDeleted(e: Event): Row {
    FirstRow(e).(deleted := true, state := "disabled")
  }

  lemma SaveThenDisable(e: Event, pending: seq<Load>)
    requires e.state == "active"
    ensures Next(EMPTY, Upsert(e, 1, false)) == State([FirstRow(e)], map[], [], [])
    ensures Next(State([FirstRow(e)], map[], [], pending), Disable(1, false))
        == State([FirstRowDeleted(e)], map[], [], pending)
  {
  }

  lemma OneRow(e: Event)
    requires e.state == "active"
    ensures LoadableRows([FirstRow(e)]) == [FirstRow(e)] && ToDomains([FirstRow(e)]) == [ToDomain(FirstRow(e))]
    ensures IndexOf([ToDomain(FirstRow(e))]) == map[e.name := ToDomain(FirstRow(e))]
  {
    assert [FirstRow(e)][..0] == [] && [ToDomain(FirstRow(e))][..0] == [];
  }

  /** A load whose query came before the deletion serves the deleted event when it refreshes after it. */
  lemma StaleLoadServesDeleted(e: Event)
    requires e.state == "active"
    ensures var s := Exec(EMPTY, [Upsert(e, 1, false)]
        + ([Query([FirstRow(e)])] + ([Disable(1, false)] + ([Refresh(0)] + []))));
      s.rows == [FirstRowDeleted(e)] && Lookup(s.index, e.name) == Some(ToDomain(FirstRow(e)))
  {
    var load := Loaded([ToDomain(FirstRow(e))]);
    SaveThenDisable(e, []);
    SaveThenDisable(e, [load]);
    OneRow(e);
    var s1 := State([FirstRow(e)], map[], [], []);
    var s2 := State([FirstRow(e)], map[], [], [load]);
    var s3 := State([FirstRowDeleted(e)], map[], [], [load]);
    assert [] + [load] == [load];
    assert Next(s1, Query([FirstRow(e)])) == s2;
    ExecCons(EMPTY, Upsert(e, 1, false), [Query([FirstRow(e)])] + ([Disable(1, false)] + ([Refresh(0)] + [])));
    ExecCons(s1, Query([FirstRow(e)]), [Disable(1, false)] + ([Refresh(0)] + []));
    ExecCons(s2, Disable(1, false), [Refresh(0)] + []);
    ExecCons(s3, Refresh(0), []);
  }

  /**
   Saving an event does not always make it served: after a successful save and a load it is served if and
   only if its name does not belong to a deleted row and its state is not "archived". What is served then
   is the saved event under the id of the existing row, if any, and without its type.
   */
  lemma SavedIsServed(s: State, e: Event, newId: nat, answer: seq<Row>)
    requires Sound(s.rows) && UpsertRows(s.rows, e, newId).Ok?
    requires Enabled(Next(s, Upsert(e, newId, false)), Query(answer))
    ensures var k := IndexOfName(s.rows, e.name);
      var served := Lookup(Installed(answer), e.name);
      var id := if k < |s.rows| then s.rows[k].id else newId;
      && (served.Some? <==> !(k < |s.rows| && s.rows[k].deleted) && EffectiveState(e) != "archived")
      && (served.Some? ==>
           served.value == Event(id, e.name, e.serviceName, EffectiveState(e), "", e.option, e.consumers))
  {
    var k := IndexOfName(s.rows, e.name);
    var s1 := Next(s, Upsert(e, newId, false));
    UpsertSound(s.rows, e, newId);
    assert k < |s1.rows| && s1.rows[k].name == e.name;
    LoadMirrorsTable(s1, answer, e.name);
    OnlyRowOfName(s1.rows, k);
    assert Loadable(s1.rows[k]) ==> s1.rows[k] in s1.rows;
  }

  lemma OnlyRowOfName(rows: seq<Row>, k: nat)
    requires Sound(rows) && k < |rows|
    ensures forall r :: r in rows && r.name == rows[k].name ==> r == rows[k]
  {
    forall r | r in rows && r.name == rows[k].name
      ensures r == rows[k]
    {
      var j :| 0 <= j < |rows| && rows[j] == r;
    }
  }

  /** Saving, deleting and saving again under the same name: the second save succeeds and is never loaded. */
  lemma SavedUnderDeletedName(e: Event, answer: seq<Row>)
    requires e.state == "active"
    requires Enabled(Exec(EMPTY, [Upsert(e, 1, false)] + ([Disable(1, false)] + ([Upsert(e, 2, false)] + []))),
        Query(answer))
    ensures UpsertRows([FirstRowDeleted(e)], e, 2).Ok? && Lookup(Installed(answer), e.name) == None
  {
    SaveThenDisable(e, []);
    var s1 := State([FirstRow(e)], map[], [], []);
    var s2 := State([FirstRowDeleted(e)], map[], [], []);
    ExecCons(EMPTY, Upsert(e, 1, false), [Disable(1, false)] + ([Upsert(e, 2, false)] + []));
    ExecCons(s1, Disable(1, false), [Upsert(e, 2, false)] + []);
    ExecCons(s2, Upsert(e, 2, false), []);
    SavedIsServed(s2, e, 2, answer);
  }
}
