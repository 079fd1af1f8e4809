/** The central service itself: tables as fields, endpoints and scheduler passes as methods.
    Each method is one transaction, and its effect is a run of atomic steps. */
module CentralService {
  import opened Sorting
  import opened TaskGraph
  import opened CentralModel
  import opened CentralSafety
  import opened CentralLife
  import opened CentralPasses
  import opened DispatchOrder

  datatype RenewOutcome = Renewed | NotFound | NotLeased | StaleLease

  datatype CreateOutcome =
    | Created
    | UnknownType
    | UnknownPriority
    | MissingAccounts
    | UnknownDependency
    | Cyclic(involved: seq<string>)
    | MalformedDate
    | UnknownPolicy
    | Conflict

  /** What each outcome says of the request: the first check it fails, or that it is created.
      The outcomes exclude one another. */
  ghost predicate Answers(s: State, request: TaskRequest, ids: seq<string>, outcome: CreateOutcome) {
    match outcome
    case UnknownType => request.taskType !in TASK_TYPES
    case UnknownPriority => request.taskType in TASK_TYPES && request.priority !in PRIORITIES
    case MissingAccounts => WellNamed(request) && !AccountsReady(s, request)
    case UnknownDependency =>
      WellNamed(request) && AccountsReady(s, request) && !KnownEdges(request.accounts, request.dependencies)
    case Cyclic(involved) =>
      && WellNamed(request) && AccountsReady(s, request) && KnownEdges(request.accounts, request.dependencies)
      && HasCycle(request.dependencies) && LargestClosed(request.dependencies, ToSet(involved))
    case MalformedDate => DependenciesPass(s, request) && !request.datesParse
    case UnknownPolicy => DependenciesPass(s, request) && request.datesParse && request.missedPolicy !in MISSED_POLICIES
    case Conflict => DependenciesPass(s, request) && Scheduled(request) && !Creatable(s, request, ids)
    case Created => Creatable(s, request, ids)
  }

  /** The names, the accounts and the dependencies pass. */
  ghost predicate DependenciesPass(s: State, request: TaskRequest) {
    && WellNamed(request) && AccountsReady(s, request)
    && KnownEdges(request.accounts, request.dependencies) && !HasCycle(request.dependencies)
  }

  function ReclaimAll(rows: seq<string>, now: int): (trace: seq<Action>)
    ensures |trace| == |rows| && forall i :: 0 <= i < |rows| ==> trace[i] == Reclaim(rows[i], now)
  {
    seq(|rows|, i requires 0 <= i < |rows| => Reclaim(rows[i], now))
  }

  lemma RunReclaim(s: State, rows: seq<string>, now: int, i: nat)
    requires i < |rows|
    ensures Run(s, ReclaimAll(rows, now)[..i + 1]) == StepReclaim(Run(s, ReclaimAll(rows, now)[..i]), rows[i], now)
  {
    RunNext(s, ReclaimAll(rows, now), i);
  }

  /** A subtask as first inserted, before its dependencies are looked at. */
  function FreshRow(request: TaskRequest, account: string, created: int): Subtask {
    Subtask(request.tenant, request.task, account, request.probe, created, "", Waiting, None, "", 0, None, None, 1, 0)
  }

  /** The listed rows have been reclaimed, the others not. */
  ghost predicate Freed(before: map<string, Subtask>, after: map<string, Subtask>, freed: seq<string>, config: Config) {
    && after.Keys == before.Keys
    && forall id :: id in before ==> after[id] == if id in freed then Reclaimed(before[id], config) else before[id]
  }

  /** Nothing but these rows has changed, by being reclaimed. */
  ghost predicate FreedOnly(s: State, s': State, freed: seq<string>) {
    s' == s.(subtasks := s'.subtasks) && Freed(s.subtasks, s'.subtasks, freed, s.config)
  }

  lemma OneMoreFreed(s: State, s': State, freed: seq<string>, id: string, now: int)
    requires FreedOnly(s, s', freed)
    requires id in s.subtasks && id !in freed && Stale(s, s.subtasks[id], now)
    ensures FreedOnly(s, StepReclaim(s', id, now), freed + [id])
  {
    assert s'.subtasks[id] == s.subtasks[id] && Stale(s', s'.subtasks[id], now);
    assert StepReclaim(s', id, now).subtasks == s'.subtasks[id := Reclaimed(s.subtasks[id], s.config)];
  }

  lemma PrefixEnds(rows: seq<string>, n: nat)
    requires Distinct(rows) && 0 < n <= |rows|
    ensures rows[..n] == rows[..n - 1] + [rows[n - 1]] && rows[n - 1] !in rows[..n - 1]
  {
  }

  lemma {:induction false} ReclaimsAll(s: State, rows: seq<string>, now: int, n: nat)
    requires Distinct(rows) && n <= |rows|
    requires forall k :: 0 <= k < |rows| ==> rows[k] in s.subtasks && Stale(s, s.subtasks[rows[k]], now)
    ensures FreedOnly(s, Run(s, ReclaimAll(rows, now)[..n]), rows[..n])
  {
    if n > 0 {
      ReclaimsAll(s, rows, now, n - 1);
      var trace := ReclaimAll(rows, now);
      RunReclaim(s, rows, now, n - 1);
      PrefixEnds(rows, n);
      OneMoreFreed(s, Run(s, trace[..n - 1]), rows[..n - 1], rows[n - 1], now);
    }
  }

  const DISPATCH_LIMIT := 50

  ghost function TickTrace(stale: seq<string>, waiting: seq<string>, queued: seq<string>, now: int, later: int)
    : seq<Action>
  {
    ReclaimAll(stale, now) + ActivateAll(waiting) + DispatchAll(queued, later)
  }

  /** A tick first frees every stale lease, then visits every row that waits after that, then
      the first rows that are queued after that. */
  ghost predicate TickOrder(
    s: State, tenant: string, now: int, stale: seq<string>, waiting: seq<string>, queued: seq<string>)
  {
    && Distinct(stale)
    && (forall id :: id in stale <==> InScope(s, Some(tenant), id) && Stale(s, s.subtasks[id], now))
    && var freed := Run(s, ReclaimAll(stale, now));
      && Lists(freed, Some(tenant), waiting)
      && Considered(Run(freed, ActivateAll(waiting)), Some(tenant), 50, queued)
  }

  /** What dispatching does to a queued row whose account qualifies. */
  function Offered(s: State, id: string, account: Account, now: int): State
    requires id in s.subtasks
  {
    var row := s.subtasks[id].(profile := account.profile);
    var device := PickDevice(s, row.tenant, account.device, now);
    if Busy(s, id, row.tenant, account.profile) || device.None? then Put(s, id, row)
    else
      var after := Dispatched(row, device.value.id, now, s.config);
      Put(s, id, after).(outbox := s.outbox + [Assignment(id, after.generation, device.value.id)])
  }

  lemma DispatchIsOffer(s: State, id: string, now: int)
    requires id in s.subtasks && s.subtasks[id].status == Queued
    ensures
      var account := EligibleAccount(s, s.subtasks[id]);
      StepDispatch(s, id, now) == if account.None? then s else Offered(s, id, account.value, now)
  {
  }

  lemma RowsAreNew(request: TaskRequest, ids: seq<string>, created: int, rows: map<string, Subtask>)
    requires |ids| == |request.accounts| && forall k :: k in rows <==> k in ids
    requires forall j :: 0 <= j < |ids| ==>
      ids[j] in rows && rows[ids[j]] == NewSubtask(request, request.accounts[j], created)
    ensures rows == NewSubtasks(request, ids, created)
  {
    forall id | id in ids
      ensures rows[id] == NewSubtasks(request, ids, created)[id]
    {
      var j := Position(ids, id);
      assert ids[j] == id;
    }
  }

  class Central {
    const config: Config
    var tasks: map<string, Priority>
    var subtasks: map<string, Subtask>
    var edges: seq<Edge<string>>
    var handles: seq<Handle>
    var results: seq<AcceptedResult>
    var outbox: seq<Assignment>
    var inbox: set<(string, string)>
    var accounts: map<(string, string), Account>
    var devices: seq<Device>

    function Snapshot(): State
      reads this
    {
      State(config, tasks, subtasks, edges, handles, results, outbox, inbox, accounts, devices)
    }

    constructor (config: Config)
      ensures this.config == config && Initial(Snapshot()) && Safe(Snapshot())
    {
      this.config := config;
      tasks, subtasks, edges, handles, results, outbox := map[], map[], [], [], [], [];
      inbox, accounts, devices := {}, map[], [];
      new;
      SafeInitially(Snapshot());
    }

    /** Reads the rows with one of the statuses, in no particular order. */
    method Select(statuses: set<Status>, tenant: Option<string>) returns (rows: seq<string>)
      ensures Distinct(rows)
      ensures forall id :: id in rows <==> InScope(Snapshot(), tenant, id) && subtasks[id].status in statuses
    {
      rows := [];
      var left := set id | id in subtasks && (tenant.None? || subtasks[id].tenant == tenant.value)
                           && subtasks[id].status in statuses;
      while left != {}
        invariant Distinct(rows) && forall id :: id in rows ==> id !in left
        invariant forall id :: id in rows || id in left <==>
          InScope(Snapshot(), tenant, id) && subtasks[id].status in statuses
      {
        var id :| id in left;
        rows, left := rows + [id], left - {id};
      }
    }

    /** Frees every stale lease in scope: a fresh generation, one more attempt, and back to
        the queue unless the attempts ran out. */
    method ReclaimStale(tenant: Option<string>, now: int) returns (ghost stale: seq<string>)
      modifies this`subtasks
      ensures Distinct(stale)
      ensures forall id :: id in stale <==>
        InScope(old(Snapshot()), tenant, id) && Stale(old(Snapshot()), old(subtasks)[id], now)
      ensures Freed(old(subtasks), subtasks, stale, config)
      ensures Snapshot() == Run(old(Snapshot()), ReclaimAll(stale, now))
    {
      var found := FindStale(tenant, now);
      stale := found;
      assert forall k :: 0 <= k < |found| ==> found[k] in found;
      ReclaimsAll(Snapshot(), found, now, |found|);
      assert ReclaimAll(found, now)[..|found|] == ReclaimAll(found, now) && found[..|found|] == found;
      FreeLeases(found, now);
    }

    /** The leased rows whose owner is offline or whose lease ran out. */
    method FindStale(tenant: Option<string>, now: int) returns (found: seq<string>)
      ensures Distinct(found)
      ensures forall id :: id in found <==> InScope(Snapshot(), tenant, id) && Stale(Snapshot(), subtasks[id], now)
    {
      var rows := Select({Assigned, Running}, tenant);
      found := [];
      for i := 0 to |rows|
        invariant Distinct(found) && forall id :: id in found ==> id in rows[..i]
        invariant forall id :: id in found ==> id in subtasks && Stale(Snapshot(), subtasks[id], now)
        invariant forall id :: id in rows[..i] && id in subtasks && Stale(Snapshot(), subtasks[id], now) ==> id in found
      {
        assert rows[i] in rows && rows[..i + 1] == rows[..i] + [rows[i]];
        var lost := IsStale(rows[i], now);
        if lost {
          found := found + [rows[i]];
        }
      }
      assert rows[..|rows|] == rows;
    }

    method IsStale(id: string, now: int) returns (lost: bool)
      requires id in subtasks && Leased(subtasks[id].status)
      ensures lost == Stale(Snapshot(), subtasks[id], now)
    {
      var row := subtasks[id];
      var online := exists d :: d in devices && d.tenant == row.tenant && d.id == row.owner && Online(d, now, config);
      return !online || Expired(row, now, config);
    }

    method FreeLeases(stale: seq<string>, now: int)
      requires Distinct(stale)
      requires forall k :: 0 <= k < |stale| ==> stale[k] in subtasks && Stale(Snapshot(), subtasks[stale[k]], now)
      modifies this`subtasks
      ensures Snapshot() == Run(old(Snapshot()), ReclaimAll(stale, now))
    {
      ghost var s, trace := Snapshot(), ReclaimAll(stale, now);
      for i := 0 to |stale|
        invariant Snapshot() == Run(s, trace[..i])
        invariant forall k :: i <= k < |stale| ==> stale[k] in subtasks && Stale(Snapshot(), subtasks[stale[k]], now)
      {
        RunReclaim(s, stale, now, i);
        FreeLease(stale[i], now);
      }
      assert trace[..|stale|] == trace;
    }

    method FreeLease(id: string, now: int)
      requires id in subtasks && Stale(Snapshot(), subtasks[id], now)
      modifies this`subtasks
      ensures subtasks == old(subtasks)[id := Reclaimed(old(subtasks)[id], config)]
      ensures Snapshot() == StepReclaim(old(Snapshot()), id, now)
    {
      var row := subtasks[id];
      var attempts := row.attempts + 1;
      subtasks := subtasks[id := row.(
        generation := row.generation + 1, attempts := attempts, owner := "", device := None, timeout := None,
        progress := None, status := if attempts > config.maxRetry then DeadLetter else Queued,
        revision := row.revision + 1)];
    }

    /** One activation pass over the waiting rows in scope. */
    method ActivateReadyDependents(tenant: Option<string>) returns (ghost rows: seq<string>)
      modifies this`subtasks
      ensures Lists(old(Snapshot()), tenant, rows)
      ensures Snapshot() == Run(old(Snapshot()), ActivateAll(rows))
    {
      var children := Select({Waiting}, tenant);
      rows := children;
      assert forall k :: 0 <= k < |children| ==> children[k] in children;
      ghost var s, trace := Snapshot(), ActivateAll(children);
      for i := 0 to |children|
        invariant Snapshot() == Run(s, trace[..i])
        invariant forall k :: i <= k < |children| ==> children[k] in subtasks && subtasks[children[k]].status == Waiting
      {
        RunActivate(s, children, i);
        ActivateRow(children[i]);
      }
      assert trace[..|children|] == trace;
    }

    method ActivateRow(child: string)
      requires child in subtasks && subtasks[child].status == Waiting
      modifies this`subtasks
      ensures Snapshot() == StepActivate(old(Snapshot()), child)
      ensures forall k :: k in old(subtasks) && k != child ==> k in subtasks && subtasks[k] == old(subtasks)[k]
    {
      var row := subtasks[child];
      var status := NextStatus(child);
      if status != Waiting {
        subtasks := subtasks[child := row.(status := status, revision := row.revision + 1)];
      }
    }

    method NextStatus(child: string) returns (status: Status)
      ensures status == Activation(Snapshot(), child)
    {
      var parentIds := set e | e in edges && e.child == child :: e.parent;
      if parentIds == {} {
        return Queued;
      }
      if exists p :: p in parentIds && p in subtasks && subtasks[p].status in {Failed, Cancelled} {
        return Failed;
      }
      if exists p :: p in parentIds && !(p in subtasks && subtasks[p].status == Success) {
        return Waiting;
      }
      var verifiedParents := set h | h in handles && h.subtask in parentIds && h.verified :: h.subtask;
      VerifiedSet(parentIds);
      return if verifiedParents == parentIds then Queued else Waiting;
    }

    lemma VerifiedSet(parentIds: set<string>)
      ensures (set h | h in handles && h.subtask in parentIds && h.verified :: h.subtask) == parentIds
        <==> forall p :: p in parentIds ==> Verified(Snapshot(), p)
    {
      forall p | p in parentIds
        ensures Verified(Snapshot(), p) <==> exists h :: h in handles && h.subtask == p && h.verified
      {
        if h :| h in handles && h.subtask == p && h.verified {
          assert h == Handle(p, true);
        }
      }
    }

    /** One dispatch pass: the first `limit` queued rows in scope, by priority and age. */
    method DispatchQueued(tenant: Option<string>, limit: nat, now: int) returns (ghost rows: seq<string>)
      modifies this`subtasks, this`outbox
      ensures Considered(old(Snapshot()), tenant, limit, rows)
      ensures Snapshot() == Run(old(Snapshot()), DispatchAll(rows, now))
    {
      var queued := Select({Queued}, tenant);
      var sorted := InDispatchOrder(tasks, subtasks, queued);
      var batch := if |sorted| > limit then sorted[..limit] else sorted;
      rows := batch;
      BatchConsidered(Snapshot(), tenant, limit, queued);
      DispatchRows(batch, now);
    }

    method DispatchRows(batch: seq<string>, now: int)
      requires forall k :: 0 <= k < |batch| ==> batch[k] in subtasks && subtasks[batch[k]].status == Queued
      requires Distinct(batch)
      modifies this`subtasks, this`outbox
      ensures Snapshot() == Run(old(Snapshot()), DispatchAll(batch, now))
    {
      ghost var s, trace := Snapshot(), DispatchAll(batch, now);
      for i := 0 to |batch|
        invariant Snapshot() == Run(s, trace[..i])
        invariant forall k :: i <= k < |batch| ==> batch[k] in subtasks && subtasks[batch[k]].status == Queued
      {
        RunDispatch(s, batch, now, i);
        DispatchRow(batch[i], now);
      }
      assert trace[..|batch|] == trace;
    }

    method DispatchRow(id: string, now: int)
      requires id in subtasks && subtasks[id].status == Queued
      modifies this`subtasks, this`outbox
      ensures Snapshot() == StepDispatch(old(Snapshot()), id, now)
      ensures forall k :: k in old(subtasks) && k != id ==> k in subtasks && subtasks[k] == old(subtasks)[k]
    {
      DispatchIsOffer(Snapshot(), id, now);
      var row := subtasks[id];
      var key := (row.tenant, row.account);
      if key !in accounts || !accounts[key].deployActive || (!row.probe && accounts[key].business != Active) {
        return;
      }
      OfferRow(id, accounts[key], now);
    }

    /** The account qualifies: the row takes over its profile, and the lease if the profile is
        free and a device is online. */
    method OfferRow(id: string, account: Account, now: int)
      requires id in subtasks && subtasks[id].status == Queued
      requires EligibleAccount(Snapshot(), subtasks[id]) == Some(account)
      modifies this`subtasks, this`outbox
      ensures Snapshot() == Offered(old(Snapshot()), id, account, now)
      ensures forall k :: k in old(subtasks) && k != id ==> k in subtasks && subtasks[k] == old(subtasks)[k]
    {
      var row := subtasks[id].(profile := account.profile);
      BusyIgnoresOwnRow(Snapshot(), id, row, row.tenant, row.profile);
      subtasks := subtasks[id := row];
      var busy := IsBusy(id, row.tenant, row.profile);
      if busy {
        return;
      }
      var device := ChooseDevice(row.tenant, account.device, now);
      if device.None? {
        return;
      }
      LeaseRow(id, device.value.id, now);
      assert subtasks == old(subtasks)[id := subtasks[id]];
    }

    method IsBusy(id: string, tenant: string, profile: string) returns (busy: bool)
      ensures busy == Busy(Snapshot(), id, tenant, profile)
    {
      return profile != "" && exists other ::
        other in subtasks && other != id && Holds(subtasks[other], tenant, profile);
    }

    /** Leases the row to the device and announces the new generation. */
    method LeaseRow(id: string, device: string, now: int)
      requires id in subtasks
      modifies this`subtasks, this`outbox
      ensures subtasks == old(subtasks)[id := Dispatched(old(subtasks)[id], device, now, config)]
      ensures outbox == old(outbox) + [Assignment(id, old(subtasks)[id].generation + 1, device)]
    {
      var row := subtasks[id];
      row := row.(
        status := Assigned, device := Some(device), owner := device, generation := row.generation + 1,
        timeout := Some(now + config.leaseSeconds), progress := Some(now), revision := row.revision + 1);
      subtasks := subtasks[id := row];
      outbox := outbox + [Assignment(id, row.generation, device)];
    }

    method ChooseDevice(tenant: string, preferred: Option<string>, now: int) returns (device: Option<Device>)
      ensures device == PickDevice(Snapshot(), tenant, preferred, now)
    {
      var online := OnlineOf(devices, tenant, now, config);
      if online == [] {
        return None;
      }
      if preferred.Some? {
        for i := 0 to |online|
          invariant Named(online, preferred.value) == Named(online[i..], preferred.value)
        {
          if online[i].id == preferred.value {
            return Some(online[i]);
          }
        }
      }
      return Some(online[0]);
    }

    /** Reclaim, activate, dispatch, in one transaction: each pass reads what the one before
        it wrote. Reclaiming and dispatching each read the clock. */
    method SchedulerTick(tenant: string, now: int, later: int)
      returns (ghost stale: seq<string>, ghost waiting: seq<string>, ghost queued: seq<string>)
      modifies this`subtasks, this`outbox
      ensures TickOrder(old(Snapshot()), tenant, now, stale, waiting, queued)
      ensures Snapshot() == Run(old(Snapshot()), TickTrace(stale, waiting, queued, now, later))
      ensures old(Safe(Snapshot())) ==> Safe(Snapshot())
    {
      ghost var s := Snapshot();
      stale := ReclaimStale(Some(tenant), now);
      waiting := ActivateReadyDependents(Some(tenant));
      queued := DispatchQueued(Some(tenant), DISPATCH_LIMIT, later);
      RunComposes(s, ReclaimAll(stale, now), ActivateAll(waiting));
      RunComposes(s, ReclaimAll(stale, now) + ActivateAll(waiting), DispatchAll(queued, later));
      if Safe(s) {
        SafeRun(s, TickTrace(stale, waiting, queued, now, later));
      }
    }

    /** Accepts a result exactly when it is new, for the current generation of a leased
        subtask of the tenant; a rejected one is rolled back whole. */
    method SubmitResult(tenant: string, m: ResultMessage) returns (accepted: bool)
      modifies this
      ensures accepted <==> AnswersLease(old(Snapshot()), tenant, m)
      ensures accepted ==> m.subtask in subtasks && Decided(old(subtasks)[m.subtask], subtasks[m.subtask], m)
      ensures Snapshot() == StepSubmit(old(Snapshot()), tenant, m)
    {
      ResultDecides(Snapshot(), tenant, m);
      var entry := (m.msgId, Subject(tenant, m.subtask));
      if entry in inbox {
        return false;
      }
      if m.subtask !in subtasks || subtasks[m.subtask].tenant != tenant {
        return false;
      }
      var row := subtasks[m.subtask];
      if row.generation != m.generation || !Leased(row.status) {
        return false;
      }
      AcceptResult(tenant, m);
      return true;
    }

    method AcceptResult(tenant: string, m: ResultMessage)
      requires Acceptable(Snapshot(), tenant, m)
      modifies this
      ensures Snapshot() == StepSubmit(old(Snapshot()), tenant, m)
    {
      var row := subtasks[m.subtask];
      inbox := inbox + {(m.msgId, Subject(tenant, m.subtask))};
      results := results + [AcceptedResult(m.subtask, m.generation, m.success)];
      var key := (tenant, row.account);
      if key in accounts {
        UpdateAccount(key, row.probe, m.success);
      }
      row := Conclude(row, m);
      subtasks := subtasks[m.subtask := row];
    }

    static method Conclude(leased: Subtask, m: ResultMessage) returns (row: Subtask)
      ensures row == Concluded(leased, m)
    {
      row := leased;
      if m.success {
        row := row.(status := Success);
      } else {
        row := row.(attempts := row.attempts + 1);
        if m.retryable && row.attempts <= RESULT_RETRIES {
          row := row.(status := Queued, owner := "", device := None, timeout := None, generation := row.generation + 1);
        } else {
          row := row.(status := DeadLetter);
        }
      }
      row := row.(progress := None, revision := row.revision + 1);
    }

    method UpdateAccount(key: (string, string), probe: bool, success: bool)
      requires key in accounts
      modifies this`accounts
      ensures accounts == old(accounts)[key := AccountAfter(old(accounts)[key], probe, success)]
    {
      var account := accounts[key];
      if success {
        account := account.(failures := 0);
        if probe && account.business == ManualVerified {
          account := account.(business := Active, revision := account.revision + 1);
        }
      } else {
        account := account.(failures := account.failures + 1);
        if probe && account.business == ManualVerified {
          account := account.(business := Captcha, revision := account.revision + 1);
        }
        if account.failures >= CIRCUIT_BREAKER {
          account := account.(business := Suspended, revision := account.revision + 1);
        }
      }
      accounts := accounts[key := account];
    }

    method RenewLease(tenant: string, id: string, device: string, generation: nat, now: int)
      returns (outcome: RenewOutcome)
      modifies this`subtasks
      ensures outcome == Renewed <==> Renewable(old(Snapshot()), tenant, id, device, generation)
      ensures outcome == NotFound <==> !Owned(old(Snapshot()), tenant, id)
      ensures outcome == NotLeased <==>
        Owned(old(Snapshot()), tenant, id) && !Leased(old(subtasks)[id].status)
      ensures Snapshot() == Step(old(Snapshot()), Renew(tenant, id, device, generation, now))
    {
      if id !in subtasks || subtasks[id].tenant != tenant {
        return NotFound;
      }
      var row := subtasks[id];
      if !Leased(row.status) {
        return NotLeased;
      }
      if row.generation != generation || row.owner != device {
        return StaleLease;
      }
      subtasks := subtasks[id := row.(
        progress := Some(now), timeout := Some(now + config.leaseSeconds), revision := row.revision + 1)];
      return Renewed;
    }

    method SubmitHandle(tenant: string, id: string, verified: bool) returns (found: bool)
      modifies this`subtasks, this`handles
      ensures found <==> Owned(old(Snapshot()), tenant, id)
      ensures found ==> id in subtasks && subtasks[id].status == Success
      ensures found ==> handles == old(handles) + [Handle(id, verified)]
      ensures Snapshot() == Step(old(Snapshot()), Deliver(tenant, id, verified))
    {
      if id !in subtasks || subtasks[id].tenant != tenant {
        return false;
      }
      handles := handles + [Handle(id, verified)];
      subtasks := subtasks[id := subtasks[id].(status := Success, revision := subtasks[id].revision + 1)];
      return true;
    }

    method RequeueDlq(tenant: string, id: string) returns (ok: bool)
      modifies this`subtasks
      ensures ok <==> InDeadLetter(old(Snapshot()), tenant, id)
      ensures ok ==> id in subtasks && subtasks[id].status == Queued && subtasks[id].attempts == 0
      ensures ok ==> subtasks[id].generation == old(subtasks)[id].generation + 1
      ensures Snapshot() == Step(old(Snapshot()), Requeue(tenant, id))
    {
      if id !in subtasks || subtasks[id].tenant != tenant || subtasks[id].status != DeadLetter {
        return false;
      }
      var row := subtasks[id];
      subtasks := subtasks[id := row.(
        status := Queued, generation := row.generation + 1, attempts := 0, owner := "", device := None, timeout := None,
        revision := row.revision + 1)];
      return true;
    }

    method TerminateDlq(tenant: string, id: string) returns (ok: bool)
      modifies this`subtasks
      ensures ok <==> InDeadLetter(old(Snapshot()), tenant, id)
      ensures ok ==> id in subtasks && subtasks[id].status == Cancelled
      ensures Snapshot() == Step(old(Snapshot()), Terminate(tenant, id))
    {
      if id !in subtasks || subtasks[id].tenant != tenant || subtasks[id].status != DeadLetter {
        return false;
      }
      var row := subtasks[id];
      subtasks := subtasks[id := row.(
        status := Cancelled, owner := "", device := None, timeout := None, revision := row.revision + 1)];
      return true;
    }

    /** Creates a task's subtasks and edges exactly when every check passes; `ids` are the
        generated subtask ids, in request order. */
    method CreateTask(request: TaskRequest, ids: seq<string>, created: int) returns (outcome: CreateOutcome)
      requires |ids| == |request.accounts|
      modifies this`tasks, this`subtasks, this`edges
      ensures Answers(old(Snapshot()), request, ids, outcome)
      ensures Snapshot() == Step(old(Snapshot()), Create(request, ids, created))
    {
      outcome := CheckRequest(request, ids);
      if outcome == Created {
        InsertRows(request, ids, created);
      }
    }

    method CheckRequest(request: TaskRequest, ids: seq<string>) returns (outcome: CreateOutcome)
      requires |ids| == |request.accounts|
      ensures Answers(Snapshot(), request, ids, outcome)
    {
      if request.taskType !in TASK_TYPES {
        return UnknownType;
      }
      if request.priority !in PRIORITIES {
        return UnknownPriority;
      }
      if !AccountsReady(Snapshot(), request) {
        return MissingAccounts;
      }
      var checked := DetectCycle(request.accounts, request.dependencies, StringLess);
      if checked.Err? {
        return UnknownDependency;
      }
      if checked.value != [] {
        return Cyclic(checked.value);
      }
      if !request.datesParse {
        return MalformedDate;
      }
      if request.missedPolicy !in MISSED_POLICIES {
        return UnknownPolicy;
      }
      NoRepeatsIffDistinct(request.accounts);
      NoRepeatsIffDistinct(ids);
      var taken := request.task in tasks || exists id :: id in ids && id in subtasks;
      if taken || !NoRepeats(request.accounts) || !NoRepeats(ids) {
        return Conflict;
      }
      return Created;
    }

    method InsertRows(request: TaskRequest, ids: seq<string>, created: int)
      requires |ids| == |request.accounts| && Distinct(ids) && Distinct(request.accounts)
      requires KnownEdges(request.accounts, request.dependencies)
      modifies this`tasks, this`subtasks, this`edges
      ensures Snapshot() == Inserted(old(Snapshot()), request, ids, created)
    {
      tasks := tasks[request.task := PriorityOf(request.priority)];
      var added, idOf := FreshRows(request, ids, created);
      var inserted := MapEdges(request, ids, idOf);
      added := ReleaseSources(request, ids, created, added);
      subtasks := subtasks + added;
      edges := edges + inserted;
    }

    /** One waiting row per account, under its generated id. */
    static method FreshRows(request: TaskRequest, ids: seq<string>, created: int)
      returns (added: map<string, Subtask>, idOf: map<string, string>)
      requires |ids| == |request.accounts| && Distinct(ids) && Distinct(request.accounts)
      ensures forall k :: k in added <==> k in ids
      ensures forall j :: 0 <= j < |ids| ==>
        ids[j] in added && added[ids[j]] == FreshRow(request, request.accounts[j], created)
      ensures forall j :: 0 <= j < |ids| ==> request.accounts[j] in idOf && idOf[request.accounts[j]] == ids[j]
    {
      added, idOf := map[], map[];
      for i := 0 to |ids|
        invariant forall k :: k in added <==> k in ids[..i]
        invariant forall j :: 0 <= j < i ==>
          ids[j] in added && added[ids[j]] == FreshRow(request, request.accounts[j], created)
        invariant forall j :: 0 <= j < i ==> request.accounts[j] in idOf && idOf[request.accounts[j]] == ids[j]
      {
        added := added[ids[i] := FreshRow(request, request.accounts[i], created)];
        idOf := idOf[request.accounts[i] := ids[i]];
        assert ids[..i + 1] == ids[..i] + [ids[i]];
      }
      assert ids[..|ids|] == ids;
    }

    static method MapEdges(request: TaskRequest, ids: seq<string>, idOf: map<string, string>)
      returns (inserted: seq<Edge<string>>)
      requires |ids| == |request.accounts| && KnownEdges(request.accounts, request.dependencies)
      requires forall j :: 0 <= j < |ids| ==> request.accounts[j] in idOf && idOf[request.accounts[j]] == ids[j]
      ensures inserted == NewEdges(request, ids)
    {
      inserted := [];
      for i := 0 to |request.dependencies|
        invariant |inserted| == i && forall j :: 0 <= j < i ==> inserted[j] == NewEdges(request, ids)[j]
      {
        var dependency := request.dependencies[i];
        assert dependency in request.dependencies;
        var j := Position(request.accounts, dependency.parent);
        var k := Position(request.accounts, dependency.child);
        assert request.accounts[j] in idOf && request.accounts[k] in idOf;
        inserted := inserted + [Edge(idOf[dependency.parent], idOf[dependency.child])];
      }
    }

    /** Queues the new rows nothing points at. */
    method ReleaseSources(request: TaskRequest, ids: seq<string>, created: int, added: map<string, Subtask>)
      returns (rows: map<string, Subtask>)
      requires |ids| == |request.accounts| && Distinct(ids)
      requires forall k :: k in added <==> k in ids
      requires forall j :: 0 <= j < |ids| ==>
        ids[j] in added && added[ids[j]] == FreshRow(request, request.accounts[j], created)
      ensures rows == NewSubtasks(request, ids, created)
    {
      rows := added;
      for i := 0 to |ids|
        invariant forall k :: k in rows <==> k in ids
        invariant forall j :: i <= j < |ids| ==> rows[ids[j]] == added[ids[j]]
        invariant forall j :: 0 <= j < i ==> rows[ids[j]] == NewSubtask(request, request.accounts[j], created)
      {
        assert ids[i] in ids;
        if !HasParents(request, request.accounts[i]) {
          rows := rows[ids[i] := rows[ids[i]].(status := Queued)];
        }
      }
      RowsAreNew(request, ids, created, rows);
    }
  }
}
