/** The two listings of archived tasks (`internal/app/taskapp/archived_task.go`). */
module ArchivedTask {
  import opened Json
  import opened MsgData

  /** An answer of the cache; the source tells "not found" from other errors. */
  datatype Answer<T> = Found(value: T) | NotFound | Failed(error: string)

  /** The contents of the cache, fixed while a listing is made. */
  datatype Cache = Cache(queues: Answer<seq<string>>, tasks: string -> Answer<seq<string>>,
                         message: (string, string) -> Answer<seq<Byte>>)

  /** A listed task; `consumers` is `None` for nil and `msg` is the text handed to the JSON decoder. */
  datatype TaskData = TaskData(id: string, queue: string, consumers: Consumers, msg: seq<Byte>, tasks: seq<string>)

  datatype Consumers = Nil | Empty

  datatype Outcome = Listed(output: seq<TaskData>) | Error(error: string)

  /** What one task contributes: nothing when it cannot be read. */
  function Entry(c: Cache, queue: string, tasks: seq<string>, consumers: Consumers, task: string): seq<TaskData> {
    match c.message(queue, task)
    case Found(raw) => [TaskData(task, queue, consumers, Extraction(raw), tasks)]
    case _ => []
  }

  /** What a queue contributes: its readable tasks, in order, each with the full list of task names. */
  function Entries(c: Cache, queue: string, tasks: seq<string>, consumers: Consumers,
                   names: seq<string>): seq<TaskData> {
    if names == [] then []
    else
      Entries(c, queue, tasks, consumers, names[..|names| - 1]) + Entry(c, queue, tasks, consumers, names[|names| - 1])
  }

  /** The task names of a queue as `GetMsgsArchived` keeps them: none when they cannot be fetched for any reason. */
  function Kept(c: Cache, queue: string): seq<string> {
    match c.tasks(queue)
    case Found(tasks) => tasks
    case _ => []
  }

  function QueueEntries(c: Cache, queue: string, consumers: Consumers): seq<TaskData> {
    Entries(c, queue, Kept(c, queue), consumers, Kept(c, queue))
  }

  /** `output` is the entries of the queues, one queue after another in some order. */
  ghost predicate Concatenates(c: Cache, queues: set<string>, output: seq<TaskData>)
    decreases queues
  {
    if queues == {} then output == []
    else exists q, n :: q in queues && 0 <= n <= |output| && EndsWith(c, queues, output, q, n)
  }

  ghost predicate EndsWith(c: Cache, queues: set<string>, output: seq<TaskData>, q: string, n: nat)
    requires q in queues && n <= |output|
    decreases queues, 0
  {
    Concatenates(c, queues - {q}, output[..n]) && output[n..] == QueueEntries(c, q, Empty)
  }

  /** The queues whose entries appear: those listed and fetchable. */
  function Fetchable(c: Cache, queues: seq<string>): set<string> {
    set q | q in queues && c.tasks(q).Found?
  }

  /** The loop over one queue's tasks, the same in both listings. */
  method ListQueue(c: Cache, queue: string, tasks: seq<string>, consumers: Consumers) returns (output: seq<TaskData>)
    ensures output == Entries(c, queue, tasks, consumers, tasks)
  {
    output := [];
    for i := 0 to |tasks|
      invariant output == Entries(c, queue, tasks, consumers, tasks[..i])
    {
      assert tasks[..i + 1][..i] == tasks[..i];
      match c.message(queue, tasks[i])
      case Found(raw) =>
        var msg := ExtractJson(raw);
        ExtractsUnique(raw, msg, Extraction(raw));
        output := output + [TaskData(tasks[i], queue, consumers, msg, tasks)];
      case _ =>
    }
    assert tasks[..|tasks|] == tasks;
  }

  /** The map from queue to task names; queues that cannot be fetched are skipped, repeated ones stored again. */
  method CollectArchived(c: Cache, queues: seq<string>) returns (archived: map<string, seq<string>>)
    ensures archived.Keys == Fetchable(c, queues)
    ensures forall q :: q in archived ==> archived[q] == Kept(c, q)
  {
    archived := map[];
    for i := 0 to |queues|
      invariant archived.Keys == Fetchable(c, queues[..i])
      invariant forall q :: q in archived ==> archived[q] == Kept(c, q)
    {
      assert queues[..i + 1] == queues[..i] + [queues[i]];
      match c.tasks(queues[i])
      case Found(result) => archived := archived[queues[i] := result];
      case _ =>
    }
    assert queues[..|queues|] == queues;
  }

  /** `output` is the entries of the queues outside `rest`. */
  ghost predicate AllBut(c: Cache, queues: set<string>, rest: set<string>, output: seq<TaskData>) {
    Concatenates(c, queues - rest, output)
  }

  lemma AllButOneLess(c: Cache, queues: set<string>, rest: set<string>, output: seq<TaskData>, q: string)
    requires AllBut(c, queues, rest, output) && q in rest && rest <= queues
    ensures AllBut(c, queues, rest - {q}, output + QueueEntries(c, q, Empty))
  {
    var longer, entries := output + QueueEntries(c, q, Empty), QueueEntries(c, q, Empty);
    var done := queues - (rest - {q});
    assert done - {q} == queues - rest;
    assert longer[..|output|] == output && longer[|output|..] == entries;
    assert EndsWith(c, done, longer, q, |output|);
  }

  lemma AllButNone(c: Cache, queues: set<string>, output: seq<TaskData>)
    requires AllBut(c, queues, {}, output)
    ensures Concatenates(c, queues, output)
  {
    assert queues - {} == queues;
  }

  /** The loop over the collected map; a Go map is ranged over in any order. */
  method ListArchived(c: Cache, archived: map<string, seq<string>>) returns (output: seq<TaskData>)
    requires forall q :: q in archived ==> archived[q] == Kept(c, q)
    ensures Concatenates(c, archived.Keys, output)
  {
    output := [];
    var rest := archived.Keys;
    while rest != {}
      invariant rest <= archived.Keys && AllBut(c, archived.Keys, rest, output)
      decreases |rest|
    {
      var queue :| queue in rest;
      var entries := ListQueue(c, queue, archived[queue], Empty);
      AllButOneLess(c, archived.Keys, rest, output, queue);
      output := output + entries;
      rest := rest - {queue};
    }
    AllButNone(c, archived.Keys, output);
  }

  /** `GetMsgsArchived`. */
  method GetMsgsArchived(c: Cache) returns (r: Outcome)
    ensures c.queues.NotFound? ==> r == Listed([])
    ensures c.queues.Failed? ==> r == Error("failed to get queues: " + c.queues.error)
    ensures c.queues.Found? ==> r.Listed? && Concatenates(c, Fetchable(c, c.queues.value), r.output)
  {
    match c.queues {
      case NotFound => return Listed([]);
      case Failed(e) => return Error("failed to get queues: " + e);
      case Found(queues) =>
        var archived := CollectArchived(c, queues);
        var output := ListArchived(c, archived);
        return Listed(output);
    }
  }

  /** `GetAllMsgsByQueue`. */
  method GetAllMsgsByQueue(c: Cache, queue: string) returns (r: Outcome)
    ensures r == ByQueue(c, queue)
  {
    match c.tasks(queue) {
      case NotFound => return Listed([]);
      case Failed(e) => return Error("failed to get archived tasks: " + e);
      case Found(tasksResult) =>
        var output := ListQueue(c, queue, tasksResult, Nil);
        return Listed(output);
    }
  }

  /** What `GetAllMsgsByQueue` answers for a queue. */
  function ByQueue(c: Cache, queue: string): Outcome {
    match c.tasks(queue)
    case Failed(e) => Error("failed to get archived tasks: " + e)
    case _ => Listed(QueueEntries(c, queue, Nil))
  }

  // ----- which tasks a queue's listing has -----

  /** Positions in increasing order. */
  predicate Ascending(at: seq<nat>) {
    forall n, m :: 0 <= n < m < |at| ==> at[n] < at[m]
  }

  /** `output` is the tasks at the positions `at`: their names, queue, names of all tasks, and extracted texts. */
  ghost predicate ListsAt(c: Cache, queue: string, tasks: seq<string>, consumers: Consumers, names: seq<string>,
                    at: seq<nat>, output: seq<TaskData>) {
    && |output| == |at| && Ascending(at)
    && (forall n :: 0 <= n < |at| ==>
          && at[n] < |names| && c.message(queue, names[at[n]]).Found?
          && output[n].id == names[at[n]] && output[n].queue == queue
          && output[n].consumers == consumers && output[n].tasks == tasks
          && Extracts(c.message(queue, names[at[n]]).value, output[n].msg))
    && (forall i :: 0 <= i < |names| && c.message(queue, names[i]).Found? ==> i in at)
  }

  /** A queue's entries are its readable tasks, each once, in the order of the list. */
  lemma {:induction false} EntriesExactly(c: Cache, queue: string, tasks: seq<string>, consumers: Consumers,
                                          names: seq<string>) returns (at: seq<nat>)
    ensures ListsAt(c, queue, tasks, consumers, names, at, Entries(c, queue, tasks, consumers, names))
  {
    if names == [] {
      at := [];
    } else {
      var init, last := names[..|names| - 1], names[|names| - 1];
      var before := EntriesExactly(c, queue, tasks, consumers, init);
      var output := Entries(c, queue, tasks, consumers, init);
      assert names == init + [last];
      match c.message(queue, last)
      case Found(raw) =>
        at := before + [|init|];
        OneMoreListed(c, queue, tasks, consumers, init, last, before, output);
      case _ =>
        at := before;
        OneMoreSkipped(c, queue, tasks, consumers, init, last, before, output);
        assert output + [] == output;
    }
  }

  /** What a queue's own listing answers, by what the cache says of its task list. */
  lemma ByQueueExactly(c: Cache, queue: string) returns (at: seq<nat>)
    ensures c.tasks(queue).NotFound? ==> ByQueue(c, queue) == Listed([])
    ensures c.tasks(queue).Failed? ==>
      ByQueue(c, queue) == Error("failed to get archived tasks: " + c.tasks(queue).error)
    ensures c.tasks(queue).Found? ==>
      var tasks := c.tasks(queue).value;
      ByQueue(c, queue).Listed? && ListsAt(c, queue, tasks, Nil, tasks, at, ByQueue(c, queue).output)
  {
    at := [];
    if c.tasks(queue).Found? {
      var tasks := c.tasks(queue).value;
      at := EntriesExactly(c, queue, tasks, Nil, tasks);
    }
  }

  lemma OneMoreListed(c: Cache, queue: string, tasks: seq<string>, consumers: Consumers,
                      init: seq<string>, last: string, at: seq<nat>, output: seq<TaskData>)
    requires ListsAt(c, queue, tasks, consumers, init, at, output) && c.message(queue, last).Found?
    ensures ListsAt(c, queue, tasks, consumers, init + [last], at + [|init|],
                    output + Entry(c, queue, tasks, consumers, last))
  {
    var names, longer := init + [last], at + [|init|];
    forall i | 0 <= i < |names| && c.message(queue, names[i]).Found?
      ensures i in longer
    {
      if i < |init| {
        assert names[i] == init[i] && i in at;
      } else {
        assert longer[|at|] == i;
      }
    }
  }

  lemma OneMoreSkipped(c: Cache, queue: string, tasks: seq<string>, consumers: Consumers,
                       init: seq<string>, last: string, at: seq<nat>, output: seq<TaskData>)
    requires ListsAt(c, queue, tasks, consumers, init, at, output) && !c.message(queue, last).Found?
    ensures ListsAt(c, queue, tasks, consumers, init + [last], at, output)
  {
    var names := init + [last];
    forall i | 0 <= i < |names| && c.message(queue, names[i]).Found?
      ensures i in at
    {
      assert i < |init| && names[i] == init[i];
    }
  }

  // ----- the listings agree -----

  /** The part of a listing that belongs to one queue, without its consumers. */
  function OfQueue(output: seq<TaskData>, queue: string): seq<TaskData> {
    if output == [] then []
    else
      var last := output[|output| - 1];
      OfQueue(output[..|output| - 1], queue) + if last.queue == queue then [last.(consumers := Nil)] else []
  }

  lemma {:induction false} OfQueueAppend(a: seq<TaskData>, b: seq<TaskData>, queue: string)
    ensures OfQueue(a + b, queue) == OfQueue(a, queue) + OfQueue(b, queue)
  {
    if b == [] {
      assert a + b == a;
    } else {
      OfQueueAppend(a, b[..|b| - 1], queue);
      assert (a + b)[..|a + b| - 1] == a + b[..|b| - 1];
    }
  }

  lemma {:induction false} OfQueueEntries(c: Cache, q: string, tasks: seq<string>, names: seq<string>, queue: string)
    ensures OfQueue(Entries(c, q, tasks, Empty, names), queue)
        == if q == queue then Entries(c, q, tasks, Nil, names) else []
  {
    if names != [] {
      var init, task := names[..|names| - 1], names[|names| - 1];
      OfQueueEntries(c, q, tasks, init, queue);
      OfQueueAppend(Entries(c, q, tasks, Empty, init), Entry(c, q, tasks, Empty, task), queue);
      assert forall d: TaskData :: [d][..0] == [];
      assert OfQueue(Entry(c, q, tasks, Empty, task), queue)
          == if q == queue then Entry(c, q, tasks, Nil, task) else [];
    }
  }

  lemma OfQueueOwn(c: Cache, q: string, queue: string)
    ensures OfQueue(QueueEntries(c, q, Empty), queue) == if q == queue then QueueEntries(c, q, Nil) else []
  {
    OfQueueEntries(c, q, Kept(c, q), Kept(c, q), queue);
  }

  /** What a set of queues contributes to one queue's part. */
  function PartOf(c: Cache, queues: set<string>, queue: string): seq<TaskData> {
    if queue in queues then QueueEntries(c, queue, Nil) else []
  }

  lemma PartStep(c: Cache, queues: set<string>, q: string, queue: string)
    requires q in queues
    ensures PartOf(c, queues, queue) == PartOf(c, queues - {q}, queue) + PartOf(c, {q}, queue)
  {
  }

  lemma OfQueueSplit(output: seq<TaskData>, n: nat, queue: string)
    requires n <= |output|
    ensures OfQueue(output, queue) == OfQueue(output[..n], queue) + OfQueue(output[n..], queue)
  {
    assert output == output[..n] + output[n..];
    OfQueueAppend(output[..n], output[n..], queue);
  }

  lemma {:induction false} OfQueueConcatenated(c: Cache, queues: set<string>, output: seq<TaskData>, queue: string)
    requires Concatenates(c, queues, output)
    ensures OfQueue(output, queue) == PartOf(c, queues, queue)
    decreases queues
  {
    if queues != {} {
      var q, n :| q in queues && 0 <= n <= |output| && EndsWith(c, queues, output, q, n);
      OfQueueConcatenated(c, queues - {q}, output[..n], queue);
      OfQueueSplit(output, n, queue);
      OfQueueOwn(c, q, queue);
      PartStep(c, queues, q, queue);
    }
  }

  /**
   For every queue whose list can be read or is absent, the whole listing contains exactly what the queue's
   own listing answers when the queue is listed, and nothing of it when it is not.
   */
  lemma ListingsAgree(c: Cache, queues: seq<string>, output: seq<TaskData>, queue: string)
    requires Concatenates(c, Fetchable(c, queues), output)
    ensures ByQueue(c, queue).Listed? ==>
        OfQueue(output, queue) == if queue in queues then ByQueue(c, queue).output else []
    ensures ByQueue(c, queue).Error? ==> OfQueue(output, queue) == []
  {
    OfQueueConcatenated(c, Fetchable(c, queues), output, queue);
    assert c.tasks(queue).NotFound? ==> QueueEntries(c, queue, Nil) == [];
  }

  /**
   The two listings differ for a queue exactly when it is not listed
   although it has readable archived tasks, or its list fails.
   */
  lemma ListingsDifferIff(c: Cache, queues: seq<string>, output: seq<TaskData>, queue: string)
    requires Concatenates(c, Fetchable(c, queues), output)
    ensures ByQueue(c, queue) != Listed(OfQueue(output, queue))
       <==> c.tasks(queue).Failed? || (queue !in queues && SomeReadable(c, queue, Kept(c, queue)))
  {
    ListingsAgree(c, queues, output, queue);
    EntriesEmptyIff(c, queue, Kept(c, queue), Kept(c, queue));
  }

  /** The message of some task can be read. */
  predicate SomeReadable(c: Cache, queue: string, names: seq<string>) {
    exists i :: 0 <= i < |names| && c.message(queue, names[i]).Found?
  }

  lemma {:induction false} EntriesEmptyIff(c: Cache, queue: string, tasks: seq<string>, names: seq<string>)
    ensures Entries(c, queue, tasks, Nil, names) != [] <==> SomeReadable(c, queue, names)
  {
    if names != [] {
      var init := names[..|names| - 1];
      EntriesEmptyIff(c, queue, tasks, init);
      assert forall i :: 0 <= i < |init| ==> init[i] == names[i];
    }
  }

  /** No queue is listed, but each has the one task "t". */
  function Unlisted(raw: seq<Byte>): Cache {
    Cache(Found([]), (q: string) => Found(["t"]), (q: string, t: string) => Found(raw))
  }

  /** An unlisted queue with a readable task: the whole listing is empty, the queue's own listing is not. */
  lemma UnlistedQueueIsMissed(raw: seq<Byte>, output: seq<TaskData>)
    requires Concatenates(Unlisted(raw), Fetchable(Unlisted(raw), Unlisted(raw).queues.value), output)
    ensures output == [] && ByQueue(Unlisted(raw), "q") == Listed([TaskData("t", "q", Nil, Extraction(raw), ["t"])])
  {
    var c := Unlisted(raw);
    assert Fetchable(c, []) == {};
    assert ["t"][..0] == [];
    assert Entries(c, "q", ["t"], Nil, ["t"]) == [] + Entry(c, "q", ["t"], Nil, "t");
  }
}
