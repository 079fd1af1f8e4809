/** What becomes of a subtask: over every run, which fields its status goes with and what makes
    it succeed; for single steps, who is dispatched, reclaimed, retried or parked. All of it is
    said in the fields of the rows, the requests and the messages. */
module CentralLife {
  import opened Sorting
  import opened TaskGraph
  import opened CentralModel
  import opened CentralSafety

  /* Success. */

  predicate Reported(results: seq<AcceptedResult>, id: string) {
    exists r :: r in results && r.subtask == id && r.success
  }

  predicate Handed(handles: seq<Handle>, id: string) {
    exists h :: h in handles && h.subtask == id
  }

  /** A subtask is successful exactly when a successful result or a handle is on record. */
  ghost predicate Accounted(s: State) {
    && (forall id :: id in s.subtasks ==>
         (s.subtasks[id].status == Success <==> Reported(s.results, id) || Handed(s.handles, id)))
    && (forall h :: h in s.handles ==> h.subtask in s.subtasks)
    && forall r :: r in s.results ==> r.subtask in s.subtasks
  }

  /** What one step on row `id` adds to the records, and what status it then has. */
  ghost predicate RecordStep(s: State, s': State, id: string)
    requires id in s.subtasks && id in s'.subtasks
  {
    || (s'.results == s.results && s'.handles == s.handles
        && (s'.subtasks[id].status == Success <==> s.subtasks[id].status == Success))
    || (s'.results == s.results && s'.subtasks[id].status == Success
        && exists verified :: s'.handles == s.handles + [Handle(id, verified)])
    || (s'.handles == s.handles && s.subtasks[id].status != Success
        && s.results <= s'.results && |s'.results| == |s.results| + 1
        && s'.results[|s.results|].subtask == id
        && s'.results[|s.results|].success == (s'.subtasks[id].status == Success))
  }

  lemma RecordsMove(s: State, a: Action, id: string)
    requires Target(a) == Some(id) && id in s.subtasks
    ensures id in Step(s, a).subtasks && RecordStep(s, Step(s, a), id)
  {
    match a
    case Submit(tenant, m) =>
      if Acceptable(s, tenant, m) {
        assert Step(s, a).results == s.results + [AcceptedResult(id, m.generation, m.success)];
      }
    case Deliver(tenant, _, verified) =>
      if Owned(s, tenant, id) {
        assert Step(s, a).handles == s.handles + [Handle(id, verified)];
      }
    case _ =>
  }

  lemma ReportedNext(results: seq<AcceptedResult>, r: AcceptedResult, id: string)
    ensures Reported(results + [r], id) <==> Reported(results, id) || (r.subtask == id && r.success)
  {
    assert r in results + [r];
    assert forall q :: q in results ==> q in results + [r];
  }

  lemma HandedNext(handles: seq<Handle>, h: Handle, id: string)
    ensures Handed(handles + [h], id) <==> Handed(handles, id) || h.subtask == id
  {
    assert h in handles + [h];
    assert forall q :: q in handles ==> q in handles + [h];
  }

  lemma AccountedRow(s: State, s': State, id: string)
    requires Accounted(s) && RowStep(s, s', id) && RecordStep(s, s', id)
    ensures Accounted(s')
  {
    forall k | k in s'.subtasks
      ensures s'.subtasks[k].status == Success <==> Reported(s'.results, k) || Handed(s'.handles, k)
    {
      if s'.handles != s.handles {
        HandedNext(s.handles, s'.handles[|s.handles|], k);
      } else if s'.results != s.results {
        assert s'.results == s.results + [s'.results[|s.results|]];
        ReportedNext(s.results, s'.results[|s.results|], k);
      }
    }
  }

  lemma AccountedStep(s: State, a: Action)
    requires Wired(s) && Accounted(s)
    ensures Accounted(Step(s, a))
  {
    StepShape(s, a);
    if Target(a).Some? && Target(a).value in s.subtasks {
      RecordsMove(s, a, Target(a).value);
    }
    AccountedMove(s, Step(s, a), Target(a));
  }

  lemma AccountedMove(s: State, s': State, target: Option<string>)
    requires Accounted(s) && Shaped(s, s', target)
    requires target.Some? && target.value in s.subtasks && target.value in s'.subtasks ==>
      RecordStep(s, s', target.value)
    ensures Accounted(s')
  {
    if target.Some? && RowStep(s, s', target.value) {
      AccountedRow(s, s', target.value);
    }
  }

  /** Over every run: a subtask is successful if and only if a successful result or a handle
      for it was accepted. */
  lemma {:induction false} SuccessIff(s: State, trace: seq<Action>)
    requires Initial(s)
    ensures Accounted(Run(s, trace))
  {
    if trace != [] {
      var front := trace[..|trace| - 1];
      SuccessIff(s, front);
      SafeInitially(s);
      SafeRun(s, front);
      AccountedStep(Run(s, front), trace[|trace| - 1]);
    }
  }

  /* The fields that go with each status. */

  predicate Unleased(row: Subtask) {
    row.owner == "" && row.device == None && row.timeout == None && row.progress == None
  }

  predicate RowFits(row: Subtask, config: Config) {
    match row.status
    case Waiting => Unleased(row) && row.generation == 0 && row.attempts == 0
    case Failed => Unleased(row) && row.generation == 0 && row.attempts == 0
    case Queued => Unleased(row)
    case Cancelled => Unleased(row)
    case DeadLetter => row.progress == None && row.attempts > 0
    case Success => true
    case _ =>
      && row.device == Some(row.owner) && row.generation > 0 && row.progress.Some?
      && row.timeout == Some(row.progress.value + config.leaseSeconds)
  }

  ghost predicate Fitting(s: State) {
    forall id :: id in s.subtasks ==> RowFits(s.subtasks[id], s.config)
  }

  lemma FitsMove(s: State, a: Action, id: string)
    requires Target(a) == Some(id) && id in s.subtasks && RowFits(s.subtasks[id], s.config)
    ensures id in Step(s, a).subtasks && RowFits(Step(s, a).subtasks[id], s.config)
  {
    if Internal(a) {
      InternalFits(s, a, id);
    } else {
      ExternalFits(s, a, id);
    }
  }

  lemma InternalFits(s: State, a: Action, id: string)
    requires Internal(a) && Target(a) == Some(id) && id in s.subtasks && RowFits(s.subtasks[id], s.config)
    ensures id in Step(s, a).subtasks && RowFits(Step(s, a).subtasks[id], s.config)
  {
  }

  lemma ExternalFits(s: State, a: Action, id: string)
    requires !Internal(a) && Target(a) == Some(id) && id in s.subtasks && RowFits(s.subtasks[id], s.config)
    ensures id in Step(s, a).subtasks && RowFits(Step(s, a).subtasks[id], s.config)
  {
  }

  lemma NewRowsFit(s: State, a: Action, id: string)
    requires Target(a).None? && id !in s.subtasks && id in Step(s, a).subtasks
    ensures RowFits(Step(s, a).subtasks[id], s.config)
  {
  }

  lemma FittingStep(s: State, a: Action)
    requires Wired(s) && Fitting(s)
    ensures Fitting(Step(s, a))
  {
    StepShape(s, a);
    ConfigFixed(s, a);
    forall id | id in Step(s, a).subtasks
      ensures RowFits(Step(s, a).subtasks[id], s.config)
    {
      if id !in s.subtasks {
        NewRowsFit(s, a, id);
      } else if Target(a) == Some(id) {
        FitsMove(s, a, id);
      } else {
        OtherRow(s, Step(s, a), Target(a), id);
      }
    }
  }

  /** Over every run: a row that is not leased, and neither parked nor finished, holds no lease
      field; a leased one names its owner's device, and its timeout is its last progress plus
      the lease time. */
  lemma {:induction false} FieldsFitStatus(s: State, trace: seq<Action>)
    requires Initial(s)
    ensures Fitting(Run(s, trace))
  {
    if trace != [] {
      var front := trace[..|trace| - 1];
      FieldsFitStatus(s, front);
      SafeInitially(s);
      SafeRun(s, front);
      FittingStep(Run(s, front), trace[|trace| - 1]);
    }
  }

  /* Leases end by time, by an offline owner, or by an answer. */

  /** A device of this name and tenant is enabled and was heard of recently enough. */
  ghost predicate Heard(s: State, tenant: string, name: string, now: int) {
    exists d :: d in s.devices && d.tenant == tenant && d.id == name && d.enabled
                && d.heartbeat.Some? && now <= d.heartbeat.value + s.config.heartbeatSeconds
  }

  ghost predicate Lapsed(s: State, row: Subtask, now: int) {
    && row.status in {Assigned, Running}
    && (!Heard(s, row.tenant, row.owner, now) || (row.timeout.Some? && now > row.timeout.value))
  }

  lemma HeardMeansOnline(s: State, row: Subtask, now: int)
    ensures Heard(s, row.tenant, row.owner, now) <==> OwnerOnline(s, row, now)
  {
    if d :| d in s.devices && d.tenant == row.tenant && d.id == row.owner && Online(d, now, s.config) {
      assert now <= d.heartbeat.value + s.config.heartbeatSeconds;
    }
  }

  /** A reclaimer's visit takes exactly the lapsed leases: past the timeout, or without an owner
      that is heard of. The row gets a fresh generation and one more attempt, and goes back to
      the queue while the attempts are within the configured bound. */
  lemma ReclaimedExactlyWhenLapsed(s: State, id: string, now: int)
    requires Fitting(s) && id in s.subtasks
    ensures id in Step(s, Reclaim(id, now)).subtasks
    ensures
      var row, row' := s.subtasks[id], Step(s, Reclaim(id, now)).subtasks[id];
      if !Lapsed(s, row, now) then row' == row
      else
        && Unleased(row') && row'.generation == row.generation + 1 && row'.attempts == row.attempts + 1
        && (row'.status == Queued <==> row'.attempts <= s.config.maxRetry)
        && (row'.status == DeadLetter <==> row'.attempts > s.config.maxRetry)
  {
    HeardMeansOnline(s, s.subtasks[id], now);
    assert RowFits(s.subtasks[id], s.config);
  }

  /** The step gave the row to the device, or prolonged its lease, at time `t`. */
  ghost predicate LeasedAt(s: State, a: Action, id: string, t: int) {
    && id in s.subtasks && id in Step(s, a).subtasks
    && match a
       case Dispatch(target, at) => target == id && at == t && s.subtasks[id].status == Queued
         && Step(s, a).subtasks[id].status == Assigned
       case Renew(tenant, target, device, generation, at) => target == id && at == t
         && s.subtasks[id].tenant == tenant && s.subtasks[id].status in {Assigned, Running}
         && s.subtasks[id].owner == device && s.subtasks[id].generation == generation
       case _ => false
  }

  /** A lease taken or renewed at `t` outlives a visit of the reclaimer exactly when its owner is
      still heard of and no more than the lease time has passed. */
  lemma LeaseLasts(s: State, a: Action, id: string, t: int, now: int)
    requires Wired(s) && Fitting(s) && LeasedAt(s, a, id, t)
    ensures
      var leased := Step(s, a);
      var row := leased.subtasks[id];
      && row.status in {Assigned, Running}
      && (Step(leased, Reclaim(id, now)) == leased <==>
           Heard(s, row.tenant, row.owner, now) && now <= t + s.config.leaseSeconds)
  {
    LeasedUntil(s, a, id, t);
    FittingStep(s, a);
    VisitedLease(Step(s, a), id, t + s.config.leaseSeconds, now);
    SameHearing(s, Step(s, a), s.subtasks[id].tenant, Step(s, a).subtasks[id].owner, now);
  }

  lemma SameHearing(s: State, s': State, tenant: string, name: string, now: int)
    requires s'.devices == s.devices && s'.config == s.config
    ensures Heard(s', tenant, name, now) <==> Heard(s, tenant, name, now)
  {
  }

  lemma LeasedUntil(s: State, a: Action, id: string, t: int)
    requires LeasedAt(s, a, id, t)
    ensures Step(s, a).devices == s.devices && Step(s, a).config == s.config
    ensures Step(s, a).subtasks[id].status in {Assigned, Running}
    ensures Step(s, a).subtasks[id].timeout == Some(t + s.config.leaseSeconds)
    ensures Step(s, a).subtasks[id].tenant == s.subtasks[id].tenant
  {
  }

  lemma VisitedLease(s: State, id: string, timeout: int, now: int)
    requires Fitting(s) && id in s.subtasks && s.subtasks[id].status in {Assigned, Running}
    requires s.subtasks[id].timeout == Some(timeout)
    ensures Step(s, Reclaim(id, now)) == s
      <==> Heard(s, s.subtasks[id].tenant, s.subtasks[id].owner, now) && now <= timeout
  {
    ReclaimedExactlyWhenLapsed(s, id, now);
    if !Lapsed(s, s.subtasks[id], now) {
      assert Step(s, Reclaim(id, now)).subtasks == s.subtasks;
    }
  }

  /* Dispatching. */

  /** The account may be worked on: deployed, and active unless this is a probe. */
  ghost predicate Workable(s: State, row: Subtask) {
    && (row.tenant, row.account) in s.accounts && s.accounts[(row.tenant, row.account)].deployActive
    && (row.probe || s.accounts[(row.tenant, row.account)].business == Active)
  }

  /** Another leased subtask of the tenant works with this profile. */
  ghost predicate Taken(s: State, id: string, tenant: string, profile: string) {
    && profile != ""
    && exists k :: k in s.subtasks && k != id && s.subtasks[k].tenant == tenant
         && s.subtasks[k].profile == profile && s.subtasks[k].status in {Assigned, Running}
  }

  ghost predicate Dispatches(s: State, id: string, now: int)
    requires id in s.subtasks
  {
    var row := s.subtasks[id];
    && Workable(s, row) && !Taken(s, id, row.tenant, s.accounts[(row.tenant, row.account)].profile)
    && exists name :: Heard(s, row.tenant, name, now)
  }

  lemma HeardMeansReachable(s: State, tenant: string, now: int, name: string)
    ensures Heard(s, tenant, name, now) <==>
      exists d :: d in s.devices && Reachable(s, tenant, now, d) && d.id == name
  {
    if d :| d in s.devices && Reachable(s, tenant, now, d) && d.id == name {
      assert now <= d.heartbeat.value + s.config.heartbeatSeconds;
    }
    if d :| d in s.devices && d.tenant == tenant && d.id == name && d.enabled
            && d.heartbeat.Some? && now <= d.heartbeat.value + s.config.heartbeatSeconds {
      assert Reachable(s, tenant, now, d);
    }
  }

  lemma TakenMeansBusy(s: State, id: string, tenant: string, profile: string)
    ensures Taken(s, id, tenant, profile) <==> Busy(s, id, tenant, profile)
  {
    if k :| k in s.subtasks && k != id && s.subtasks[k].tenant == tenant
            && s.subtasks[k].profile == profile && s.subtasks[k].status in {Assigned, Running} {
      assert Holds(s.subtasks[k], tenant, profile);
    }
  }

  lemma DeviceChosen(s: State, tenant: string, preferred: Option<string>, now: int)
    ensures PickDevice(s, tenant, preferred, now).Some? <==> exists name :: Heard(s, tenant, name, now)
    ensures PickDevice(s, tenant, preferred, now).Some? ==>
      var name := PickDevice(s, tenant, preferred, now).value.id;
      && Heard(s, tenant, name, now)
      && (preferred.Some? && Heard(s, tenant, preferred.value, now) ==> name == preferred.value)
  {
    PickDeviceMeaning(s, tenant, preferred, now);
    if preferred.Some? {
      HeardMeansReachable(s, tenant, now, preferred.value);
    }
    if PickDevice(s, tenant, preferred, now).Some? {
      HeardMeansReachable(s, tenant, now, PickDevice(s, tenant, preferred, now).value.id);
    }
    if name :| Heard(s, tenant, name, now) {
      HeardMeansReachable(s, tenant, now, name);
    }
  }

  /** A queued subtask that is visited gets a lease exactly when its account may be worked on,
      no other leased subtask of the tenant has the account's profile, and some device of the
      tenant is heard of; the lease goes to the account's own device if that is. */
  lemma DispatchedExactlyWhen(s: State, id: string, now: int)
    requires id in s.subtasks && s.subtasks[id].status == Queued
    ensures id in Step(s, Dispatch(id, now)).subtasks
    ensures
      var row, row' := s.subtasks[id], Step(s, Dispatch(id, now)).subtasks[id];
      && (row'.status == Assigned <==> Dispatches(s, id, now))
      && (row'.status == Queued <==> !Dispatches(s, id, now))
      && (row'.status == Assigned ==>
           var account := s.accounts[(row.tenant, row.account)];
           && row'.profile == account.profile && row'.generation == row.generation + 1
           && Heard(s, row.tenant, row'.owner, now) && row'.device == Some(row'.owner)
           && (account.device.Some? && Heard(s, row.tenant, account.device.value, now) ==>
                row'.owner == account.device.value))
  {
    var row := s.subtasks[id];
    if Workable(s, row) {
      var account := s.accounts[(row.tenant, row.account)];
      TakenMeansBusy(s, id, row.tenant, account.profile);
      DeviceChosen(s, row.tenant, account.device, now);
    }
  }

  /* Results. */

  /** The message is new and answers the lease the row is under. */
  ghost predicate AnswersLease(s: State, tenant: string, m: ResultMessage) {
    && (m.msgId, tenant + "/" + m.subtask) !in s.inbox
    && m.subtask in s.subtasks && s.subtasks[m.subtask].tenant == tenant
    && s.subtasks[m.subtask].generation == m.generation && s.subtasks[m.subtask].status in {Assigned, Running}
  }

  /** A success finishes the row. A failure counts an attempt, and requeues the row for a fresh
      generation exactly when it may be retried and no more than three attempts result. */
  predicate Decided(row: Subtask, row': Subtask, m: ResultMessage) {
    && (row'.status == Success <==> m.success)
    && (row'.status == Queued <==> !m.success && m.retryable && row'.attempts <= 3)
    && (row'.status == DeadLetter <==> !m.success && !(m.retryable && row'.attempts <= 3))
    && row'.attempts == row.attempts + (if m.success then 0 else 1)
    && row'.generation == row.generation + (if row'.status == Queued then 1 else 0)
    && row'.progress == None
  }

  lemma ResultDecides(s: State, tenant: string, m: ResultMessage)
    ensures
      var s' := Step(s, Submit(tenant, m));
      if !AnswersLease(s, tenant, m) then s' == s
      else
        && m.subtask in s'.subtasks && Decided(s.subtasks[m.subtask], s'.subtasks[m.subtask], m)
        && s'.results == s.results + [AcceptedResult(m.subtask, m.generation, m.success)]
        && s'.inbox == s.inbox + {(m.msgId, tenant + "/" + m.subtask)}
  {
  }

  /** The step reports a failure that ends the retries. */
  ghost predicate FailsForGood(s: State, a: Action, id: string)
    requires id in s.subtasks
  {
    && a.Submit? && a.message.subtask == id && AnswersLease(s, a.tenant, a.message)
    && !a.message.success && (!a.message.retryable || s.subtasks[id].attempts >= 3)
  }

  ghost predicate LapsesForGood(s: State, a: Action, id: string)
    requires id in s.subtasks
  {
    a.Reclaim? && a.id == id && Lapsed(s, s.subtasks[id], a.now) && s.subtasks[id].attempts >= s.config.maxRetry
  }

  ghost predicate ParkedBy(s: State, a: Action, id: string)
    requires id in s.subtasks
  {
    FailsForGood(s, a, id) || LapsesForGood(s, a, id)
  }

  /** A subtask is parked by exactly two things: a failure that may not be retried or is one too
      many, and a lapsed lease that is one too many. */
  lemma ParkedExactlyWhen(s: State, a: Action, id: string)
    requires Wired(s) && Fitting(s) && id in s.subtasks && s.subtasks[id].status != DeadLetter
    ensures id in Step(s, a).subtasks
    ensures Step(s, a).subtasks[id].status == DeadLetter <==> ParkedBy(s, a, id)
  {
    if Target(a) != Some(id) {
      StepShape(s, a);
      OtherRow(s, Step(s, a), Target(a), id);
    } else if a.Reclaim? {
      ReclaimedExactlyWhenLapsed(s, id, a.now);
    } else if a.Submit? {
      ResultDecides(s, a.tenant, a.message);
    } else {
      NeverParks(s, a, id);
    }
  }

  lemma NeverParks(s: State, a: Action, id: string)
    requires Target(a) == Some(id) && id in s.subtasks && s.subtasks[id].status != DeadLetter
    requires !a.Reclaim? && !a.Submit?
    ensures id in Step(s, a).subtasks && Step(s, a).subtasks[id].status != DeadLetter
  {
  }

  /** A probe's result decides a manual verification, the third failure in a row suspends
      whatever the account was, and nothing else changes its standing. */
  lemma ProbeDecides(s: State, tenant: string, m: ResultMessage)
    requires AnswersLease(s, tenant, m) && (tenant, s.subtasks[m.subtask].account) in s.accounts
    ensures
      var row, key := s.subtasks[m.subtask], (tenant, s.subtasks[m.subtask].account);
      var s' := Step(s, Submit(tenant, m));
      && s'.accounts.Keys == s.accounts.Keys
      && (forall other :: other in s.accounts && other != key ==> s'.accounts[other] == s.accounts[other])
      && var before, after := s.accounts[key], s'.accounts[key];
        && after.failures == (if m.success then 0 else before.failures + 1)
        && (!m.success && after.failures >= 3 ==> after.business == Suspended)
        && (!(!m.success && after.failures >= 3) ==>
             if row.probe && before.business == ManualVerified
             then after.business == if m.success then Active else Captcha
             else after.business == before.business)
        && (after.revision == before.revision <==>
             !(row.probe && before.business == ManualVerified) && (m.success || after.failures < 3))
        && after.profile == before.profile && after.device == before.device
        && after.deployActive == before.deployActive
  {
  }
}
