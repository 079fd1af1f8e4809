/** central/assignment.py: which queued subtasks a dispatch pass takes, and in which order. */
module DispatchOrder {
  import opened Sorting
  import opened CentralModel
  import opened CentralSafety
  import opened CentralPasses
  import opened CentralCreation

  /** The sort key: high, medium, low, then age; a missing task counts as medium. */
  function Rank(tasks: map<string, Priority>, subtasks: map<string, Subtask>, id: string): (int, int) {
    if id !in subtasks then (1, 0)
    else if subtasks[id].task !in tasks then (1, subtasks[id].created)
    else
      var rank := match tasks[subtasks[id].task] case High => 0 case Medium => 1 case Low => 2;
      (rank, subtasks[id].created)
  }

  /** The sort key comparison the dispatcher uses. */
  predicate RankBefore(tasks: map<string, Priority>, subtasks: map<string, Subtask>, a: string, b: string) {
    var (x, s) := Rank(tasks, subtasks, a);
    var (y, t) := Rank(tasks, subtasks, b);
    x < y || (x == y && s < t)
  }

  function InDispatchOrder(tasks: map<string, Priority>, subtasks: map<string, Subtask>, rows: seq<string>)
    : seq<string>
  {
    Sort(rows, (a, b) => RankBefore(tasks, subtasks, a, b))
  }

  /** The row's task has this priority; a missing one passes for medium. */
  ghost predicate Urgent(s: State, id: string, priority: Priority) {
    && id in s.subtasks
    && var task := s.subtasks[id].task;
      (task in s.tasks && s.tasks[task] == priority) || (task !in s.tasks && priority == Medium)
  }

  /** More urgent: high before the others, medium before low. */
  ghost predicate MoreUrgent(s: State, a: string, b: string) {
    (Urgent(s, a, High) && !Urgent(s, b, High)) || (Urgent(s, a, Medium) && Urgent(s, b, Low))
  }

  /** More urgent, or as urgent and older. */
  ghost predicate Ahead(s: State, a: string, b: string) {
    && a in s.subtasks && b in s.subtasks
    && (MoreUrgent(s, a, b) || (!MoreUrgent(s, b, a) && s.subtasks[a].created < s.subtasks[b].created))
  }

  ghost predicate Due(s: State, tenant: Option<string>, id: string) {
    InScope(s, tenant, id) && s.subtasks[id].status == Queued
  }

  /** The first rows of a dispatch pass: none comes before one it is behind, and no row is left
      out unless the batch is full of rows it is not ahead of. */
  ghost predicate Considered(s: State, tenant: Option<string>, limit: nat, rows: seq<string>) {
    && Distinct(rows) && |rows| <= limit
    && (forall id :: id in rows ==> Due(s, tenant, id))
    && (forall i, j :: 0 <= i < j < |rows| ==> !Ahead(s, rows[j], rows[i]))
    && forall id :: Due(s, tenant, id) && id !in rows ==> |rows| == limit && forall k :: k in rows ==> !Ahead(s, id, k)
  }

  /** Sorting by the key is sorting by urgency and age. */
  lemma RankMeansAhead(s: State, a: string, b: string)
    requires a in s.subtasks && b in s.subtasks
    ensures RankBefore(s.tasks, s.subtasks, a, b) <==> Ahead(s, a, b)
  {
  }

  lemma SortedForDispatch(s: State, queued: seq<string>)
    requires Distinct(queued) && forall id :: id in queued ==> id in s.subtasks
    ensures
      var sorted := InDispatchOrder(s.tasks, s.subtasks, queued);
      && Distinct(sorted) && (forall id :: id in sorted <==> id in queued)
      && forall i, j :: 0 <= i < j < |sorted| ==> !Ahead(s, sorted[j], sorted[i])
  {
    var before := (a, b) => RankBefore(s.tasks, s.subtasks, a, b);
    var sorted := Sort(queued, before);
    SortKeepsDistinct(queued, before);
    SameElements(queued, sorted);
    SortOrdered(queued, before);
    forall i, j | 0 <= i < j < |sorted|
      ensures !Ahead(s, sorted[j], sorted[i])
    {
      assert sorted[i] in sorted && sorted[j] in sorted;
      RankMeansAhead(s, sorted[j], sorted[i]);
    }
  }

  /** The first rows of the sorted listing are the ones to consider. */
  lemma BatchConsidered(s: State, tenant: Option<string>, limit: nat, queued: seq<string>)
    requires Distinct(queued) && forall id :: id in queued <==> Due(s, tenant, id)
    ensures
      var sorted := InDispatchOrder(s.tasks, s.subtasks, queued);
      var batch := if |sorted| > limit then sorted[..limit] else sorted;
      && Considered(s, tenant, limit, batch)
      && forall k :: 0 <= k < |batch| ==> batch[k] in s.subtasks && s.subtasks[batch[k]].status == Queued
  {
    var sorted := InDispatchOrder(s.tasks, s.subtasks, queued);
    var batch := if |sorted| > limit then sorted[..limit] else sorted;
    SortedForDispatch(s, queued);
    forall id | id in batch
      ensures id in queued
    {
      assert id in sorted;
    }
    forall id, k | id in sorted && id !in batch && k in batch
      ensures !Ahead(s, id, k)
    {
      var i := Locate(sorted, id);
      var j := Locate(batch, k);
    }
    assert forall k :: 0 <= k < |batch| ==> batch[k] in batch;
  }

  /** Of two considered or queued rows in scope: which way round a pass may take them. */
  ghost predicate TakenFirst(rows: seq<string>, a: string, b: string) {
    a in rows && (b !in rows || exists i, j :: 0 <= i < j < |rows| && rows[i] == a && rows[j] == b)
  }

  /** A request's priority, as its text, against another's. */
  predicate NamedHigher(name: string, other: string) {
    (name == "high" && other in {"medium", "low"}) || (name == "medium" && other == "low")
  }

  /** In a dispatch pass after any run, no row is taken before one whose request named a higher
      priority, nor before an older one of the same priority, whether that one comes later in
      the batch or is left out of it. */
  lemma RequestedPriorityFirst(
    s: State, trace: seq<Action>, tenant: Option<string>, limit: nat, rows: seq<string>,
    m: nat, request: TaskRequest, a: string, n: nat, request': TaskRequest, b: string)
    requires Safe(s) && CreatedBy(s, trace, m, request, a) && CreatedBy(s, trace, n, request', b)
    requires Considered(Run(s, trace), tenant, limit, rows) && Due(Run(s, trace), tenant, b) && TakenFirst(rows, a, b)
    ensures !NamedHigher(request'.priority, request.priority)
    ensures request'.priority == request.priority ==> trace[m].created <= trace[n].created
  {
    CreationStays(s, trace, m, request, a);
    CreationStays(s, trace, n, request', b);
    var later := Run(s, trace);
    assert !Ahead(later, b, a);
  }
}
