/** central/tasks.py and the probe scheduler: what creating a task stores, in the fields of the
    request, and what stays of it along every run. */
module CentralCreation {
  import opened Sorting
  import opened TaskGraph
  import opened CentralModel
  import opened CentralSafety

  /** The row as the request's account has it: waiting exactly when some dependency names the
      account as its child. */
  predicate Requested(request: TaskRequest, account: string, created: int, row: Subtask) {
    && row.tenant == request.tenant && row.task == request.task && row.account == account
    && row.probe == request.probe && row.created == created && row.profile == ""
    && (row.status == Waiting <==> exists e :: e in request.dependencies && e.child == account)
    && (row.status == Queued <==> forall e :: e in request.dependencies ==> e.child != account)
    && row.generation == 0 && row.attempts == 0 && row.owner == "" && row.device == None
  }

  /** The stored priority is the one named. */
  predicate NamedPriority(name: string, priority: Priority) {
    && (priority == High <==> name == "high")
    && (priority == Low <==> name == "low")
    && (name == "medium" ==> priority == Medium)
  }

  /** A task of a known kind, priority and policy with well-formed dates, for deployed accounts
      of its tenant, each once, whose dependencies are among them and acyclic, under fresh ids. */
  ghost predicate Admissible(s: State, request: TaskRequest, ids: seq<string>) {
    && request.taskType in {"publish", "browse", "comment", "like", "follow", "deploy"}
    && request.priority in {"high", "medium", "low"}
    && (forall i :: 0 <= i < |request.accounts| ==>
         var key := (request.tenant, request.accounts[i]);
         key in s.accounts && s.accounts[key].deployActive)
    && (forall e :: e in request.dependencies ==> e.parent in request.accounts && e.child in request.accounts)
    && !HasCycle(request.dependencies)
    && request.datesParse && request.missedPolicy in {"immediate", "skip"}
    && (forall i, j :: 0 <= i < j < |request.accounts| ==> request.accounts[i] != request.accounts[j])
    && |ids| == |request.accounts| && request.task !in s.tasks
    && (forall i :: 0 <= i < |ids| ==> ids[i] !in s.subtasks)
    && forall i, j :: 0 <= i < j < |ids| ==> ids[i] != ids[j]
  }

  /** Exactly the admissible requests store anything. */
  lemma StoredIffAdmissible(s: State, request: TaskRequest, ids: seq<string>, created: int)
    ensures Creatable(s, request, ids) <==> Admissible(s, request, ids)
    ensures Step(s, Create(request, ids, created)) == s <==> !Admissible(s, request, ids)
  {
    AdmissibleMeans(s, request, ids);
    if Creatable(s, request, ids) {
      assert request.task in Inserted(s, request, ids, created).tasks;
    }
  }

  lemma AdmissibleMeans(s: State, request: TaskRequest, ids: seq<string>)
    ensures Creatable(s, request, ids) <==> Admissible(s, request, ids)
  {
    assert forall i :: 0 <= i < |request.accounts| ==> request.accounts[i] in request.accounts;
    assert forall i :: 0 <= i < |ids| ==> ids[i] in ids;
  }

  lemma RowRequested(request: TaskRequest, ids: seq<string>, created: int, k: nat)
    requires |ids| == |request.accounts| && Distinct(ids) && k < |ids|
    ensures ids[k] in NewSubtasks(request, ids, created)
    ensures Requested(request, request.accounts[k], created, NewSubtasks(request, ids, created)[ids[k]])
  {
    PositionUnique(ids, k);
    if HasParents(request, request.accounts[k]) {
      var e :| e in request.dependencies && e.child == request.accounts[k];
    }
  }

  /** A created task stores its priority and one row per account, and leaves all other rows and
      tasks as they were. */
  lemma CreatedRows(s: State, request: TaskRequest, ids: seq<string>, created: int)
    requires Creatable(s, request, ids)
    ensures
      var s' := Step(s, Create(request, ids, created));
      && s'.tasks.Keys == s.tasks.Keys + {request.task} && NamedPriority(request.priority, s'.tasks[request.task])
      && (forall t :: t in s.tasks ==> s'.tasks[t] == s.tasks[t])
      && s'.subtasks.Keys == s.subtasks.Keys + ToSet(ids)
      && (forall id :: id in s.subtasks ==> s'.subtasks[id] == s.subtasks[id])
      && forall k :: 0 <= k < |ids| ==> Requested(request, request.accounts[k], created, s'.subtasks[ids[k]])
  {
    var rows := NewSubtasks(request, ids, created);
    assert Step(s, Create(request, ids, created)) == Inserted(s, request, ids, created);
    forall k | 0 <= k < |ids|
      ensures ids[k] in rows && Requested(request, request.accounts[k], created, rows[ids[k]])
    {
      RowRequested(request, ids, created, k);
    }
    Merged(s.subtasks, rows, ids);
  }

  lemma Merged(rows: map<string, Subtask>, added: map<string, Subtask>, ids: seq<string>)
    requires (forall id :: id in added <==> id in ids) && forall id :: id in ids ==> id !in rows
    ensures (rows + added).Keys == rows.Keys + ToSet(ids)
    ensures forall id :: id in rows ==> (rows + added)[id] == rows[id]
    ensures forall k :: 0 <= k < |ids| ==> (rows + added)[ids[k]] == added[ids[k]]
  {
    assert forall k :: 0 <= k < |ids| ==> ids[k] in ids;
  }

  lemma EdgeImage(request: TaskRequest, ids: seq<string>, p: nat, q: nat)
    requires |ids| == |request.accounts| && Distinct(ids) && Distinct(request.accounts)
    requires KnownEdges(request.accounts, request.dependencies) && p < |ids| && q < |ids|
    ensures Edge(ids[p], ids[q]) in NewEdges(request, ids)
      <==> Edge(request.accounts[p], request.accounts[q]) in request.dependencies
  {
    var e, d := Edge(ids[p], ids[q]), Edge(request.accounts[p], request.accounts[q]);
    PositionUnique(request.accounts, p);
    PositionUnique(request.accounts, q);
    if d in request.dependencies {
      var i := Locate(request.dependencies, d);
      assert NewEdges(request, ids)[i] == e;
    }
    if e in NewEdges(request, ids) {
      var i := Locate(NewEdges(request, ids), e);
      var named := request.dependencies[i];
      assert named in request.dependencies;
      var j, k := Position(request.accounts, named.parent), Position(request.accounts, named.child);
      assert ids[j] == ids[p] && ids[k] == ids[q];
    }
  }

  /** The stored edges among the new rows are the dependencies among their accounts. */
  lemma CreatedEdges(s: State, request: TaskRequest, ids: seq<string>, created: int, p: nat, q: nat)
    requires Wired(s) && Creatable(s, request, ids) && p < |ids| && q < |ids|
    ensures Edge(ids[p], ids[q]) in Step(s, Create(request, ids, created)).edges
      <==> Edge(request.accounts[p], request.accounts[q]) in request.dependencies
  {
    EdgeImage(request, ids, p, q);
    assert Edge(ids[p], ids[q]) !in s.edges by {
      assert ids[p] in ids && ids[p] !in s.subtasks && Wired(s);
    }
  }

  /** A probe is scheduled exactly for a manually verified account and a fresh task: one queued
      row, of low priority and marked as a probe. */
  lemma ProbeRow(s: State, tenant: string, account: string, task: string, id: string, created: int)
    requires task !in s.tasks && id !in s.subtasks
    ensures
      var s' := Step(s, Probe(tenant, account, task, id, created));
      if !((tenant, account) in s.accounts && s.accounts[(tenant, account)].business == ManualVerified) then s' == s
      else
        && s'.tasks == s.tasks[task := Low] && s'.subtasks.Keys == s.subtasks.Keys + {id}
        && (forall k :: k in s.subtasks ==> s'.subtasks[k] == s.subtasks[k])
        && var row := s'.subtasks[id];
          && row.tenant == tenant && row.task == task && row.account == account && row.probe && row.created == created
          && row.status == Queued && row.generation == 0 && row.attempts == 0 && row.owner == ""
  {
  }

  /* Along every run. */

  /** What a row was created with stays. */
  predicate SameBirth(row: Subtask, row': Subtask) {
    && row'.tenant == row.tenant && row'.task == row.task && row'.account == row.account
    && row'.probe == row.probe && row'.created == row.created
  }

  lemma BirthMove(s: State, a: Action, id: string)
    requires Target(a) == Some(id) && id in s.subtasks
    ensures id in Step(s, a).subtasks && SameBirth(s.subtasks[id], Step(s, a).subtasks[id])
  {
    if Internal(a) {
      InternalBirth(s, a, id);
    } else {
      ExternalBirth(s, a, id);
    }
  }

  lemma InternalBirth(s: State, a: Action, id: string)
    requires Internal(a) && Target(a) == Some(id) && id in s.subtasks
    ensures id in Step(s, a).subtasks && SameBirth(s.subtasks[id], Step(s, a).subtasks[id])
  {
    if a.Dispatch? {
      DispatchBirth(s, id, a.now);
    }
  }

  lemma DispatchBirth(s: State, id: string, now: int)
    requires id in s.subtasks
    ensures id in StepDispatch(s, id, now).subtasks
    ensures SameBirth(s.subtasks[id], StepDispatch(s, id, now).subtasks[id])
  {
  }

  lemma ExternalBirth(s: State, a: Action, id: string)
    requires !Internal(a) && Target(a) == Some(id) && id in s.subtasks
    ensures id in Step(s, a).subtasks && SameBirth(s.subtasks[id], Step(s, a).subtasks[id])
  {
    if a.Submit? {
      SubmitBirth(s, a.tenant, a.message);
    }
  }

  lemma SubmitBirth(s: State, tenant: string, m: ResultMessage)
    requires m.subtask in s.subtasks
    ensures m.subtask in StepSubmit(s, tenant, m).subtasks
    ensures SameBirth(s.subtasks[m.subtask], StepSubmit(s, tenant, m).subtasks[m.subtask])
  {
  }

  lemma BirthStep(s: State, a: Action, id: string)
    requires Wired(s) && id in s.subtasks
    ensures id in Step(s, a).subtasks && SameBirth(s.subtasks[id], Step(s, a).subtasks[id])
  {
    StepShape(s, a);
    if Target(a) == Some(id) {
      BirthMove(s, a, id);
    } else {
      OtherRow(s, Step(s, a), Target(a), id);
    }
  }

  lemma TasksStep(s: State, a: Action)
    ensures forall t :: t in s.tasks ==> t in Step(s, a).tasks && Step(s, a).tasks[t] == s.tasks[t]
  {
    if Target(a).Some? {
      TasksUntouched(s, a);
    }
  }

  lemma TasksUntouched(s: State, a: Action)
    requires Target(a).Some?
    ensures Step(s, a).tasks == s.tasks
  {
  }

  lemma {:induction false} BirthStays(s: State, trace: seq<Action>, id: string)
    requires Safe(s) && id in s.subtasks
    ensures id in Run(s, trace).subtasks && SameBirth(s.subtasks[id], Run(s, trace).subtasks[id])
    ensures forall t :: t in s.tasks ==> t in Run(s, trace).tasks && Run(s, trace).tasks[t] == s.tasks[t]
  {
    if trace != [] {
      var front := trace[..|trace| - 1];
      BirthStays(s, front, id);
      SafeRun(s, front);
      BirthStep(Run(s, front), trace[|trace| - 1], id);
      TasksStep(Run(s, front), trace[|trace| - 1]);
    }
  }

  /** The `n`-th step of the run creates `request`, and `id` is one of its rows. */
  ghost predicate CreatedBy(s: State, trace: seq<Action>, n: nat, request: TaskRequest, id: string) {
    && n < |trace| && trace[n].Create? && trace[n].request == request
    && Creatable(Run(s, trace[..n]), request, trace[n].ids) && id in trace[n].ids
  }

  /** The row right after its creation. */
  ghost predicate Born(s: State, request: TaskRequest, created: int, id: string) {
    && id in s.subtasks && s.subtasks[id].created == created && s.subtasks[id].task == request.task
    && request.task in s.tasks && NamedPriority(request.priority, s.tasks[request.task])
  }

  lemma CreatedIsBorn(s: State, request: TaskRequest, ids: seq<string>, created: int, id: string)
    requires Creatable(s, request, ids) && id in ids
    ensures Born(Step(s, Create(request, ids, created)), request, created, id)
  {
    CreatedRows(s, request, ids, created);
    var k := Locate(ids, id);
    assert Requested(request, request.accounts[k], created, Step(s, Create(request, ids, created)).subtasks[ids[k]]);
  }

  lemma RunSplits(s: State, trace: seq<Action>, n: nat)
    requires n < |trace|
    ensures Run(s, trace) == Run(Step(Run(s, trace[..n]), trace[n]), trace[n + 1..])
  {
    RunNext(s, trace, n);
    RunComposes(s, trace[..n + 1], trace[n + 1..]);
    assert trace == trace[..n + 1] + trace[n + 1..];
  }

  /** Whatever happens after its creation, a row keeps the time and the priority it was
      requested with. */
  lemma CreationStays(s: State, trace: seq<Action>, n: nat, request: TaskRequest, id: string)
    requires Safe(s) && CreatedBy(s, trace, n, request, id)
    ensures Born(Run(s, trace), request, trace[n].created, id)
  {
    var before := Run(s, trace[..n]);
    SafeRun(s, trace[..n]);
    SafeStep(before, trace[n]);
    CreatedIsBorn(before, request, trace[n].ids, trace[n].created, id);
    RunSplits(s, trace, n);
    BirthStays(Step(before, trace[n]), trace[n + 1..], id);
  }
}
