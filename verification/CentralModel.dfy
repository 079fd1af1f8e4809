/** The rows of the central control service and the atomic steps that change them: one step
    per row a scheduler pass touches, one per endpoint call. */
module CentralModel {
  import opened Sorting
  import opened TaskGraph

  datatype Status = Waiting | Queued | Assigned | Running | Success | Failed | DeadLetter | Cancelled

  datatype Business = Active | Captcha | ManualVerified | Suspended | ManualReview

  datatype Subtask = Subtask(
    tenant: string, task: string, account: string, probe: bool, created: int,
    profile: string, status: Status, device: Option<string>, owner: string, generation: nat,
    timeout: Option<int>, progress: Option<int>, revision: nat, attempts: nat)

  datatype Account = Account(
    profile: string, deployActive: bool, business: Business, device: Option<string>, failures: nat, revision: nat)

  datatype Device = Device(tenant: string, id: string, enabled: bool, heartbeat: Option<int>)

  datatype Priority = High | Medium | Low

  datatype Handle = Handle(subtask: string, verified: bool)

  datatype AcceptedResult = AcceptedResult(subtask: string, generation: nat, success: bool)

  datatype Assignment = Assignment(subtask: string, generation: nat, device: string)

  /** `maxRetry` is the configured bound the reclaimer uses; results use a literal 3. */
  datatype Config = Config(heartbeatSeconds: int, leaseSeconds: int, maxRetry: int)

  const RESULT_RETRIES := 3
  const CIRCUIT_BREAKER := 3

  /** Devices are in row-id order; every other table is keyed or append-only. */
  datatype State = State(
    config: Config,
    tasks: map<string, Priority>,
    subtasks: map<string, Subtask>,
    edges: seq<Edge<string>>,
    handles: seq<Handle>,
    results: seq<AcceptedResult>,
    outbox: seq<Assignment>,
    inbox: set<(string, string)>,
    accounts: map<(string, string), Account>,
    devices: seq<Device>)

  function Put(s: State, id: string, row: Subtask): State {
    s.(subtasks := s.subtasks[id := row])
  }

  predicate Leased(status: Status) {
    status == Assigned || status == Running
  }

  /* Devices. */

  predicate Online(device: Device, now: int, config: Config) {
    device.enabled && device.heartbeat.Some? && now - device.heartbeat.value <= config.heartbeatSeconds
  }

  function OnlineOf(devices: seq<Device>, tenant: string, now: int, config: Config): (r: seq<Device>)
    ensures forall d :: d in r <==> d in devices && d.tenant == tenant && Online(d, now, config)
  {
    if devices == [] then []
    else
      assert devices == [devices[0]] + devices[1..];
      (if devices[0].tenant == tenant && Online(devices[0], now, config) then [devices[0]] else [])
      + OnlineOf(devices[1..], tenant, now, config)
  }

  function Named(devices: seq<Device>, id: string): Option<Device> {
    if devices == [] then None
    else if devices[0].id == id then Some(devices[0])
    else Named(devices[1..], id)
  }

  /** The preferred device if it is online, otherwise the online one with the least row id. */
  function PickDevice(s: State, tenant: string, preferred: Option<string>, now: int): Option<Device> {
    var online := OnlineOf(s.devices, tenant, now, s.config);
    if online == [] then None
    else if preferred.Some? && Named(online, preferred.value).Some? then Named(online, preferred.value)
    else Some(online[0])
  }

  /** A device this tenant's subtasks may be sent to. */
  predicate Reachable(s: State, tenant: string, now: int, d: Device) {
    d.tenant == tenant && Online(d, now, s.config)
  }

  ghost predicate FirstReachable(s: State, tenant: string, now: int, i: int) {
    && 0 <= i < |s.devices| && Reachable(s, tenant, now, s.devices[i])
    && forall j :: 0 <= j < i ==> !Reachable(s, tenant, now, s.devices[j])
  }

  /** The choice is a reachable device, if there is one: the preferred one when that is
      reachable, otherwise the first in row order. */
  lemma PickDeviceMeaning(s: State, tenant: string, preferred: Option<string>, now: int)
    ensures PickDevice(s, tenant, preferred, now).None? <==>
      forall d :: d in s.devices ==> !Reachable(s, tenant, now, d)
    ensures PickDevice(s, tenant, preferred, now).Some? ==>
      var choice := PickDevice(s, tenant, preferred, now).value;
      && choice in s.devices && Reachable(s, tenant, now, choice)
      && if preferred.Some? && exists d :: d in s.devices && Reachable(s, tenant, now, d) && d.id == preferred.value
         then choice.id == preferred.value
         else exists i :: FirstReachable(s, tenant, now, i) && s.devices[i] == choice
  {
    var online := OnlineOf(s.devices, tenant, now, s.config);
    if online != [] {
      assert online[0] in online;
      FirstOnline(s, tenant, now, 0);
      if preferred.Some? {
        NamedMeaning(online, preferred.value);
      }
    }
  }

  lemma {:induction false} NamedMeaning(devices: seq<Device>, id: string)
    ensures Named(devices, id).None? <==> forall d :: d in devices ==> d.id != id
    ensures Named(devices, id).Some? ==> Named(devices, id).value in devices && Named(devices, id).value.id == id
  {
    if devices != [] {
      assert devices == [devices[0]] + devices[1..];
      NamedMeaning(devices[1..], id);
    }
  }

  lemma {:induction false} FirstOnline(s: State, tenant: string, now: int, n: nat)
    requires n <= |s.devices| && forall j :: 0 <= j < n ==> !Reachable(s, tenant, now, s.devices[j])
    requires OnlineOf(s.devices[n..], tenant, now, s.config) != []
    requires OnlineOf(s.devices[n..], tenant, now, s.config) == OnlineOf(s.devices, tenant, now, s.config)
    ensures exists i ::
      FirstReachable(s, tenant, now, i) && s.devices[i] == OnlineOf(s.devices, tenant, now, s.config)[0]
    decreases |s.devices| - n
  {
    if Reachable(s, tenant, now, s.devices[n]) {
      assert FirstReachable(s, tenant, now, n);
    } else {
      assert s.devices[n..][1..] == s.devices[n + 1..];
      FirstOnline(s, tenant, now, n + 1);
    }
  }

  /* Reclaiming a lease. */

  predicate Expired(row: Subtask, now: int, config: Config) {
    var last := if row.progress.Some? then row.progress else row.timeout;
    last.Some? && now - last.value > config.leaseSeconds
  }

  predicate OwnerOnline(s: State, row: Subtask, now: int) {
    exists d :: d in s.devices && d.tenant == row.tenant && d.id == row.owner && Online(d, now, s.config)
  }

  predicate Stale(s: State, row: Subtask, now: int) {
    Leased(row.status) && (!OwnerOnline(s, row, now) || Expired(row, now, s.config))
  }

  function Reclaimed(row: Subtask, config: Config): Subtask {
    row.(
      generation := row.generation + 1, attempts := row.attempts + 1, owner := "", device := None,
      timeout := None, progress := None, revision := row.revision + 1,
      status := if row.attempts + 1 > config.maxRetry then DeadLetter else Queued)
  }

  /* Activating a dependent. */

  function ParentsOf(s: State, id: string): set<string> {
    set e | e in s.edges && e.child == id :: e.parent
  }

  predicate Verified(s: State, id: string) {
    Handle(id, true) in s.handles
  }

  /** Finished well, with a verified handle. */
  predicate Delivered(s: State, id: string) {
    id in s.subtasks && s.subtasks[id].status == Success && Verified(s, id)
  }

  predicate ParentsDelivered(s: State, id: string) {
    forall p :: p in ParentsOf(s, id) ==> Delivered(s, p)
  }

  predicate ParentFailed(s: State, id: string) {
    exists p :: p in ParentsOf(s, id) && p in s.subtasks && s.subtasks[p].status in {Failed, Cancelled}
  }

  /** The status a waiting subtask gets when its row is visited. */
  function Activation(s: State, id: string): Status {
    if ParentsOf(s, id) == {} then Queued
    else if ParentFailed(s, id) then Failed
    else if ParentsDelivered(s, id) then Queued
    else Waiting
  }

  /* Dispatching. */

  predicate Holds(row: Subtask, tenant: string, profile: string) {
    row.tenant == tenant && row.profile == profile && Leased(row.status)
  }

  predicate Busy(s: State, id: string, tenant: string, profile: string) {
    profile != "" && exists other :: other in s.subtasks && other != id && Holds(s.subtasks[other], tenant, profile)
  }

  lemma BusyIgnoresOwnRow(s: State, id: string, row: Subtask, tenant: string, profile: string)
    requires id in s.subtasks
    ensures Busy(Put(s, id, row), id, tenant, profile) == Busy(s, id, tenant, profile)
  {
    var s' := Put(s, id, row);
    forall other | other != id
      ensures other in s.subtasks <==> other in s'.subtasks
      ensures other in s.subtasks ==> s'.subtasks[other] == s.subtasks[other]
    {
    }
    if Busy(s, id, tenant, profile) {
      var other :| other in s.subtasks && other != id && Holds(s.subtasks[other], tenant, profile);
      assert Holds(s'.subtasks[other], tenant, profile);
    }
  }

  predicate Dispatchable(account: Account, probe: bool) {
    account.deployActive && (probe || account.business == Active)
  }

  function EligibleAccount(s: State, row: Subtask): Option<Account> {
    var key := (row.tenant, row.account);
    if key in s.accounts && Dispatchable(s.accounts[key], row.probe) then Some(s.accounts[key]) else None
  }

  /** The device a queued row would go to, or None when something blocks it. */
  function DispatchTarget(s: State, id: string, now: int): Option<Device>
    requires id in s.subtasks
  {
    var row := s.subtasks[id];
    var account := EligibleAccount(s, row);
    if row.status != Queued || account.None? || Busy(s, id, row.tenant, account.value.profile) then None
    else PickDevice(s, row.tenant, account.value.device, now)
  }

  function Dispatched(row: Subtask, device: string, now: int, config: Config): Subtask {
    row.(
      status := Assigned, device := Some(device), owner := device, generation := row.generation + 1,
      timeout := Some(now + config.leaseSeconds), progress := Some(now), revision := row.revision + 1)
  }

  /* Results. */

  datatype ResultMessage = ResultMessage(
    subtask: string, generation: nat, success: bool, retryable: bool, msgId: string)

  function Subject(tenant: string, subtask: string): string {
    tenant + "/" + subtask
  }

  predicate Acceptable(s: State, tenant: string, m: ResultMessage) {
    && (m.msgId, Subject(tenant, m.subtask)) !in s.inbox
    && m.subtask in s.subtasks && s.subtasks[m.subtask].tenant == tenant
    && s.subtasks[m.subtask].generation == m.generation && Leased(s.subtasks[m.subtask].status)
  }

  predicate Retries(row: Subtask, m: ResultMessage) {
    !m.success && m.retryable && row.attempts + 1 <= RESULT_RETRIES
  }

  function Concluded(row: Subtask, m: ResultMessage): Subtask {
    var closed := row.(progress := None, revision := row.revision + 1);
    if m.success then closed.(status := Success)
    else if Retries(row, m) then
      closed.(
        attempts := row.attempts + 1, status := Queued, owner := "", device := None, timeout := None,
        generation := row.generation + 1)
    else closed.(attempts := row.attempts + 1, status := DeadLetter)
  }

  /** What a result does to the account: a probe decides a manual verification, and three
      failures in a row suspend. */
  function AccountAfter(account: Account, probe: bool, success: bool): Account {
    var verdict := probe && account.business == ManualVerified;
    if success then
      if verdict then account.(failures := 0, business := Active, revision := account.revision + 1)
      else account.(failures := 0)
    else
      var probed :=
        if verdict
        then account.(failures := account.failures + 1, business := Captcha, revision := account.revision + 1)
        else account.(failures := account.failures + 1);
      if probed.failures >= CIRCUIT_BREAKER then probed.(business := Suspended, revision := probed.revision + 1)
      else probed
  }

  /* Task creation. */

  const TASK_TYPES := {"publish", "browse", "comment", "like", "follow", "deploy"}
  const PRIORITIES := {"high", "medium", "low"}
  const MISSED_POLICIES := {"immediate", "skip"}

  /** `datesParse` says that the deadline and the scheduled time, if given, are well-formed. */
  datatype TaskRequest = TaskRequest(
    tenant: string, task: string, taskType: string, priority: string, accounts: seq<string>,
    dependencies: seq<Edge<string>>, probe: bool, datesParse: bool, missedPolicy: string)

  function PriorityOf(name: string): Priority {
    if name == "high" then High else if name == "low" then Low else Medium
  }

  predicate WellNamed(request: TaskRequest) {
    request.taskType in TASK_TYPES && request.priority in PRIORITIES
  }

  predicate Scheduled(request: TaskRequest) {
    request.datesParse && request.missedPolicy in MISSED_POLICIES
  }

  /** The subtask id given to an account: ids are generated in request order. */
  function IdOf(request: TaskRequest, ids: seq<string>, account: string): string
    requires |ids| == |request.accounts|
  {
    if account in request.accounts then ids[Position(request.accounts, account)] else ""
  }

  function Position(xs: seq<string>, x: string): (i: nat)
    requires x in xs
    ensures i < |xs| && xs[i] == x
  {
    if xs[0] == x then 0 else 1 + Position(xs[1..], x)
  }

  predicate HasParents(request: TaskRequest, account: string) {
    exists e :: e in request.dependencies && e.child == account
  }

  function NewSubtask(request: TaskRequest, account: string, created: int): Subtask {
    Subtask(request.tenant, request.task, account, request.probe, created, "",
      if HasParents(request, account) then Waiting else Queued, None, "", 0, None, None, 1, 0)
  }

  function NewSubtasks(request: TaskRequest, ids: seq<string>, created: int): map<string, Subtask>
    requires |ids| == |request.accounts|
  {
    map id | id in ids :: NewSubtask(request, request.accounts[Position(ids, id)], created)
  }

  function NewEdges(request: TaskRequest, ids: seq<string>): (edges: seq<Edge<string>>)
    requires |ids| == |request.accounts|
    ensures |edges| == |request.dependencies|
  {
    seq(|request.dependencies|, i requires 0 <= i < |request.dependencies| =>
      Edge(IdOf(request, ids, request.dependencies[i].parent), IdOf(request, ids, request.dependencies[i].child)))
  }

  predicate AccountsReady(s: State, request: TaskRequest) {
    forall a :: a in request.accounts ==>
      (request.tenant, a) in s.accounts && s.accounts[(request.tenant, a)].deployActive
  }

  /** All of a request's checks but the acyclic one: known names, accounts active in the
      tenant, dependencies over those accounts, a schedule that parses, and the unique
      constraints on the inserted rows. */
  ghost predicate Insertable(s: State, request: TaskRequest, ids: seq<string>) {
    && |ids| == |request.accounts|
    && WellNamed(request) && Scheduled(request)
    && AccountsReady(s, request)
    && KnownEdges(request.accounts, request.dependencies)
    && request.task !in s.tasks
    && Distinct(request.accounts) && Distinct(ids) && forall id :: id in ids ==> id !in s.subtasks
  }

  ghost predicate Creatable(s: State, request: TaskRequest, ids: seq<string>) {
    Insertable(s, request, ids) && !HasCycle(request.dependencies)
  }

  function Inserted(s: State, request: TaskRequest, ids: seq<string>, created: int): State
    requires |ids| == |request.accounts|
  {
    s.(
      tasks := s.tasks[request.task := PriorityOf(request.priority)],
      subtasks := s.subtasks + NewSubtasks(request, ids, created),
      edges := s.edges + NewEdges(request, ids))
  }

  datatype Action =
    | Create(request: TaskRequest, ids: seq<string>, created: int)
    | Probe(tenant: string, account: string, task: string, id: string, created: int)
    | Reclaim(id: string, now: int)
    | Activate(id: string)
    | Dispatch(id: string, now: int)
    | Submit(tenant: string, message: ResultMessage)
    | Renew(tenant: string, id: string, device: string, generation: nat, now: int)
    | Deliver(tenant: string, id: string, verified: bool)
    | Requeue(tenant: string, id: string)
    | Terminate(tenant: string, id: string)
    | AccountsChange(accounts: map<(string, string), Account>)
    | DevicesChange(devices: seq<Device>)

  predicate Owned(s: State, tenant: string, id: string) {
    id in s.subtasks && s.subtasks[id].tenant == tenant
  }

  predicate Renewable(s: State, tenant: string, id: string, device: string, generation: nat) {
    Owned(s, tenant, id) && Leased(s.subtasks[id].status)
    && s.subtasks[id].generation == generation && s.subtasks[id].owner == device
  }

  predicate InDeadLetter(s: State, tenant: string, id: string) {
    Owned(s, tenant, id) && s.subtasks[id].status == DeadLetter
  }

  function StepReclaim(s: State, id: string, now: int): State {
    if id in s.subtasks && Stale(s, s.subtasks[id], now) then Put(s, id, Reclaimed(s.subtasks[id], s.config)) else s
  }

  function StepActivate(s: State, id: string): State {
    if id in s.subtasks && s.subtasks[id].status == Waiting && Activation(s, id) != Waiting
    then Put(s, id, s.subtasks[id].(status := Activation(s, id), revision := s.subtasks[id].revision + 1))
    else s
  }

  /** A row whose account qualifies takes over the account's profile even when it then stays
      queued. */
  function StepDispatch(s: State, id: string, now: int): State {
    if id !in s.subtasks || s.subtasks[id].status != Queued || EligibleAccount(s, s.subtasks[id]).None? then s
    else
      var row := s.subtasks[id].(profile := EligibleAccount(s, s.subtasks[id]).value.profile);
      var target := DispatchTarget(s, id, now);
      if target.None? then Put(s, id, row)
      else
        var after := Dispatched(row, target.value.id, now, s.config);
        Put(s, id, after).(outbox := s.outbox + [Assignment(id, after.generation, target.value.id)])
  }

  function StepSubmit(s: State, tenant: string, m: ResultMessage): State {
    if !Acceptable(s, tenant, m) then s
    else
      var row := s.subtasks[m.subtask];
      var key := (tenant, row.account);
      Put(s, m.subtask, Concluded(row, m)).(
        inbox := s.inbox + {(m.msgId, Subject(tenant, m.subtask))},
        results := s.results + [AcceptedResult(m.subtask, m.generation, m.success)],
        accounts :=
          if key in s.accounts then s.accounts[key := AccountAfter(s.accounts[key], row.probe, m.success)]
          else s.accounts)
  }

  function StepRenew(s: State, tenant: string, id: string, device: string, generation: nat, now: int): State {
    if !Renewable(s, tenant, id, device, generation) then s
    else
      var row := s.subtasks[id];
      Put(s, id, row.(
        progress := Some(now), timeout := Some(now + s.config.leaseSeconds), revision := row.revision + 1))
  }

  /** Submitting a handle succeeds the subtask whatever its status and generation. */
  function StepDeliver(s: State, tenant: string, id: string, verified: bool): State {
    if !Owned(s, tenant, id) then s
    else
      var row := s.subtasks[id];
      Put(s, id, row.(status := Success, revision := row.revision + 1)).(handles := s.handles + [Handle(id, verified)])
  }

  function StepRequeue(s: State, tenant: string, id: string): State {
    if !InDeadLetter(s, tenant, id) then s
    else
      var row := s.subtasks[id];
      Put(s, id, row.(
        status := Queued, generation := row.generation + 1, attempts := 0, owner := "", device := None, timeout := None,
        revision := row.revision + 1))
  }

  function StepTerminate(s: State, tenant: string, id: string): State {
    if !InDeadLetter(s, tenant, id) then s
    else
      var row := s.subtasks[id];
      Put(s, id, row.(status := Cancelled, owner := "", device := None, timeout := None, revision := row.revision + 1))
  }

  ghost function StepCreate(s: State, request: TaskRequest, ids: seq<string>, created: int): State {
    if Creatable(s, request, ids) then Inserted(s, request, ids, created) else s
  }

  predicate Probeable(s: State, tenant: string, account: string, task: string, id: string) {
    && (tenant, account) in s.accounts && s.accounts[(tenant, account)].business == ManualVerified
    && task !in s.tasks && id !in s.subtasks
  }

  /** A probe is a task of one queued subtask, outside the deploy check. */
  function StepProbe(s: State, tenant: string, account: string, task: string, id: string, created: int): State {
    if !Probeable(s, tenant, account, task, id) then s
    else
      Put(s, id, Subtask(tenant, task, account, true, created, "", Queued, None, "", 0, None, None, 1, 0))
        .(tasks := s.tasks[task := Low])
  }

  ghost function Step(s: State, a: Action): State {
    match a
    case Create(request, ids, created) => StepCreate(s, request, ids, created)
    case Probe(tenant, account, task, id, created) => StepProbe(s, tenant, account, task, id, created)
    case Reclaim(id, now) => StepReclaim(s, id, now)
    case Activate(id) => StepActivate(s, id)
    case Dispatch(id, now) => StepDispatch(s, id, now)
    case Submit(tenant, message) => StepSubmit(s, tenant, message)
    case Renew(tenant, id, device, generation, now) => StepRenew(s, tenant, id, device, generation, now)
    case Deliver(tenant, id, verified) => StepDeliver(s, tenant, id, verified)
    case Requeue(tenant, id) => StepRequeue(s, tenant, id)
    case Terminate(tenant, id) => StepTerminate(s, tenant, id)
    case AccountsChange(accounts) => s.(accounts := accounts)
    case DevicesChange(devices) => s.(devices := devices)
  }

  ghost function Run(s: State, trace: seq<Action>): State {
    if trace == [] then s else Step(Run(s, trace[..|trace| - 1]), trace[|trace| - 1])
  }

  lemma RunNext(s: State, trace: seq<Action>, i: nat)
    requires i < |trace|
    ensures Run(s, trace[..i + 1]) == Step(Run(s, trace[..i]), trace[i])
  {
    assert trace[..i + 1][..i] == trace[..i];
  }

  /** An empty database. */
  predicate Initial(s: State) {
    s.subtasks == map[] && s.edges == [] && s.handles == [] && s.results == [] && s.outbox == []
  }
}
