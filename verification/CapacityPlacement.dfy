/** central/accounts.py and central/allocation.py: importing accounts onto the least loaded
    devices. */
module CapacityPlacement {
  import opened Sorting

  datatype Device = Device(tenant: string, id: string, enabled: bool, capacity: int, used: nat)

  datatype DeployStatus = Imported | Deploying

  datatype Account = Account(status: DeployStatus, device: Option<string>)

  datatype Failure = DuplicateAccount | NoDeviceCapacity

  datatype Deploy = Deploy(account: string, device: string)

  /** The rows an import reads and writes. Devices are in row-id order. */
  datatype Books = Books(accounts: map<(string, string), Account>, devices: seq<Device>, deploys: seq<Deploy>)

  predicate Candidate(device: Device, tenant: string) {
    device.tenant == tenant && device.enabled && device.used < device.capacity
  }

  /** Strictly lower water level, used over capacity; only candidates are compared, and
      their capacities are positive. */
  predicate Lower(a: Device, b: Device) {
    a.used * b.capacity < b.used * a.capacity
  }

  /** The first candidate of least level: devices are in row-id order, so ties go to the
      lower id. */
  ghost predicate LeastLoaded(devices: seq<Device>, tenant: string, i: nat) {
    && i < |devices| && Candidate(devices[i], tenant)
    && forall j :: 0 <= j < |devices| && Candidate(devices[j], tenant) ==>
      !Lower(devices[j], devices[i]) && (j < i ==> Lower(devices[i], devices[j]))
  }

  function SelectDevice(devices: seq<Device>, tenant: string): (choice: Option<nat>)
    ensures choice.None? <==> forall i :: 0 <= i < |devices| ==> !Candidate(devices[i], tenant)
    ensures choice.Some? ==> LeastLoaded(devices, tenant, choice.value)
  {
    if devices == [] then
      None
    else
      var n := |devices| - 1;
      var choice := SelectDevice(devices[..n], tenant);
      if !Candidate(devices[n], tenant) then
        assert choice.Some? ==> LeastLoaded(devices[..n], tenant, choice.value);
        choice
      else if choice.None? then Some(n)
      else if Lower(devices[n], devices[choice.value]) then
        LowerThanAll(devices, tenant, choice.value);
        Some(n)
      else choice
  }

  lemma LowerThanAll(devices: seq<Device>, tenant: string, i: nat)
    requires devices != [] && LeastLoaded(devices[..|devices| - 1], tenant, i)
    requires Candidate(devices[|devices| - 1], tenant) && Lower(devices[|devices| - 1], devices[i])
    ensures LeastLoaded(devices, tenant, |devices| - 1)
  {
    var n := |devices| - 1;
    forall j | 0 <= j < n && Candidate(devices[j], tenant)
      ensures Lower(devices[n], devices[j]) && !Lower(devices[j], devices[n])
    {
      assert devices[..n][j] == devices[j] && !Lower(devices[..n][j], devices[i]);
      LowerThanNotLower(devices[n], devices[i], devices[j]);
    }
  }

  lemma LowerThanNotLower(a: Device, b: Device, c: Device)
    requires a.capacity > 0 && b.capacity > 0 && c.capacity > 0
    requires Lower(a, b) && !Lower(c, b)
    ensures Lower(a, c) && !Lower(c, a)
  {
    CrossMultiply(a.used, a.capacity, b.used, b.capacity, c.used, c.capacity);
  }

  lemma CrossMultiply(a: int, A: int, b: int, B: int, c: int, C: int)
    requires A > 0 && B > 0 && C > 0 && a * B < b * A && b * C <= c * B
    ensures a * C < c * A
  {
    assert a * B * C < b * A * C by {
      MultiplyLess(a * B, b * A, C);
    }
    assert b * C * A <= c * B * A by {
      MultiplyLessEqual(b * C, c * B, A);
    }
    assert (a * C) * B < (c * A) * B by {
      assert a * B * C == (a * C) * B;
      assert b * A * C == b * C * A;
      assert c * B * A == (c * A) * B;
    }
    DivideLess(a * C, c * A, B);
  }

  lemma MultiplyLess(x: int, y: int, k: int)
    requires x < y && k > 0
    ensures x * k < y * k
  {
    assert y * k - x * k == (y - x) * k;
  }

  lemma MultiplyLessEqual(x: int, y: int, k: int)
    requires x <= y && k > 0
    ensures x * k <= y * k
  {
    assert y * k - x * k == (y - x) * k;
  }

  lemma DivideLess(x: int, y: int, k: int)
    requires x * k < y * k && k > 0
    ensures x < y
  {
    if x >= y {
      MultiplyLessEqual(y, x, k);
    }
  }

  /** Device `i` is at most one account ahead of every enabled device of the tenant. */
  ghost predicate Balanced(devices: seq<Device>, tenant: string, i: nat)
    requires i < |devices|
  {
    forall j :: 0 <= j < |devices| && devices[j].tenant == tenant && devices[j].enabled ==>
      NotAhead(devices[i], devices[j])
  }

  predicate NotAhead(a: Device, b: Device) {
    (a.used - 1) * b.capacity <= b.used * a.capacity
  }

  /** The devices after an import: same devices, no account lost, none past its capacity
      that was not there before. */
  ghost predicate Grown(before: seq<Device>, after: seq<Device>) {
    && |after| == |before|
    && forall i :: 0 <= i < |before| ==>
      after[i] == before[i].(used := after[i].used) && before[i].used <= after[i].used
      && (after[i].used > before[i].used ==> after[i].used <= after[i].capacity && after[i].enabled)
  }

  function Total(devices: seq<Device>): nat {
    if devices == [] then 0 else Total(devices[..|devices| - 1]) + devices[|devices| - 1].used
  }

  lemma {:induction false} TotalAfterOne(devices: seq<Device>, i: nat)
    requires i < |devices|
    ensures Total(devices[i := devices[i].(used := devices[i].used + 1)]) == Total(devices) + 1
  {
    var n := |devices| - 1;
    var grown := devices[i := devices[i].(used := devices[i].used + 1)];
    if i < n {
      TotalAfterOne(devices[..n], i);
      assert grown[..n] == devices[..n][i := devices[i].(used := devices[i].used + 1)];
    } else {
      assert grown[..n] == devices[..n];
    }
  }

  lemma PlacedIsBalanced(devices: seq<Device>, tenant: string, i: nat)
    requires i < |devices| && Candidate(devices[i], tenant)
    requires forall j :: 0 <= j < |devices| && Candidate(devices[j], tenant) ==> !Lower(devices[j], devices[i])
    ensures Balanced(devices[i := devices[i].(used := devices[i].used + 1)], tenant, i)
  {
    var after := devices[i := devices[i].(used := devices[i].used + 1)];
    forall j | 0 <= j < |after| && after[j].tenant == tenant && after[j].enabled
      ensures NotAhead(after[i], after[j])
    {
      if j != i && !Candidate(devices[j], tenant) {
        FullIsHigh(devices[i].used, devices[i].capacity, devices[j].used, devices[j].capacity);
      } else if j == i {
        assert devices[i].used * devices[i].capacity <= (devices[i].used + 1) * devices[i].capacity;
      }
    }
  }

  lemma FullIsHigh(a: nat, A: int, b: nat, B: int)
    requires a < A && b >= B
    ensures a * B <= b * A
  {
    if B > 0 {
      MultiplyLessEqual(a, A, B);
      MultiplyLessEqual(B, b, A);
      assert B * A == A * B;
    } else {
      assert a * B <= 0 by {
        if a > 0 {
          MultiplyLessEqual(B, 0, a);
        }
      }
      assert b * A >= 0;
    }
  }

  lemma StaysBalanced(devices: seq<Device>, tenant: string, i: nat, k: nat)
    requires i < |devices| && k < |devices| && i != k && Balanced(devices, tenant, i)
    requires devices[i].used < devices[i].capacity + 1 && devices[i].capacity >= 0
    ensures Balanced(devices[k := devices[k].(used := devices[k].used + 1)], tenant, i)
  {
    var after := devices[k := devices[k].(used := devices[k].used + 1)];
    forall j | 0 <= j < |after| && after[j].tenant == tenant && after[j].enabled
      ensures NotAhead(after[i], after[j])
    {
      assert NotAhead(devices[i], devices[j]);
      if j == k {
        assert (devices[j].used + 1) * devices[i].capacity
          == devices[j].used * devices[i].capacity + devices[i].capacity;
      }
    }
  }

  /* A whole import, as a function of the rows it starts from. */

  function OneMore(devices: seq<Device>, i: nat): seq<Device>
    requires i < |devices|
  {
    devices[i := devices[i].(used := devices[i].used + 1)]
  }

  /** The account is always recorded; it is deployed only when a device has room. */
  function ImportOne(b: Books, tenant: string, item: string): Books {
    if (tenant, item) in b.accounts then b
    else
      match SelectDevice(b.devices, tenant)
      case None => b.(accounts := b.accounts[(tenant, item) := Account(Imported, None)])
      case Some(i) =>
        Books(b.accounts[(tenant, item) := Account(Deploying, Some(b.devices[i].id))],
              OneMore(b.devices, i),
              b.deploys + [Deploy(item, b.devices[i].id)])
  }

  function ImportAll(b: Books, tenant: string, items: seq<string>): Books {
    if items == [] then b else ImportOne(ImportAll(b, tenant, items[..|items| - 1]), tenant, items[|items| - 1])
  }

  /** A dry run leaves the books alone. */
  function BooksAfter(b: Books, tenant: string, items: seq<string>, dryRun: bool): Books {
    if dryRun then b else ImportAll(b, tenant, items)
  }

  /** The failures reported, in request order; a dry run only looks for stored accounts. */
  function FailuresOf(b: Books, tenant: string, items: seq<string>, dryRun: bool): seq<(string, Failure)> {
    if items == [] then []
    else
      var front, item := items[..|items| - 1], items[|items| - 1];
      FailuresOf(b, tenant, front, dryRun) + FailureOf(BooksAfter(b, tenant, front, dryRun), tenant, item, dryRun)
  }

  function FailureOf(books: Books, tenant: string, item: string, dryRun: bool): seq<(string, Failure)> {
    if (tenant, item) in books.accounts then [(item, DuplicateAccount)]
    else if !dryRun && SelectDevice(books.devices, tenant).None? then [(item, NoDeviceCapacity)]
    else []
  }

  /** The places left on the tenant's enabled devices. */
  function Free(devices: seq<Device>, tenant: string): nat {
    if devices == [] then 0
    else
      var last := devices[|devices| - 1];
      Free(devices[..|devices| - 1], tenant) + if Candidate(last, tenant) then last.capacity - last.used else 0
  }

  lemma {:induction false} FreeIsRoom(devices: seq<Device>, tenant: string)
    ensures Free(devices, tenant) == 0 <==> SelectDevice(devices, tenant).None?
  {
    if devices != [] {
      FreeIsRoom(devices[..|devices| - 1], tenant);
    }
  }

  lemma {:induction false} FreeAfterOne(devices: seq<Device>, tenant: string, i: nat)
    requires i < |devices| && Candidate(devices[i], tenant)
    ensures Free(devices, tenant) == Free(OneMore(devices, i), tenant) + 1
  {
    var n := |devices| - 1;
    var grown := OneMore(devices, i);
    if i < n {
      FreeAfterOne(devices[..n], tenant, i);
      assert grown[..n] == OneMore(devices[..n], i);
    } else {
      assert grown[..n] == devices[..n];
    }
  }

  /** The requested accounts that are not stored yet, as often as they are requested. */
  function NewItems(b: Books, tenant: string, items: seq<string>): seq<string> {
    if items == [] then []
    else
      NewItems(b, tenant, items[..|items| - 1])
      + if (tenant, items[|items| - 1]) in b.accounts then [] else [items[|items| - 1]]
  }

  function Min(a: nat, b: nat): nat {
    if a < b then a else b
  }

  lemma {:induction false} StoredAfter(b: Books, tenant: string, items: seq<string>)
    ensures forall key :: key in ImportAll(b, tenant, items).accounts <==>
      key in b.accounts || (key.0 == tenant && key.1 in NewItems(b, tenant, items))
  {
    if items != [] {
      StoredAfter(b, tenant, items[..|items| - 1]);
    }
  }

  /** The accounts deployed between two states, and the places and counts they took. */
  predicate Deployed(b: Books, after: Books, tenant: string, n: nat) {
    && |after.deploys| == |b.deploys| + n
    && Free(after.devices, tenant) + n == Free(b.devices, tenant)
    && Total(after.devices) == Total(b.devices) + n
  }

  lemma OneDeployed(b: Books, tenant: string, item: string)
    ensures Deployed(b, ImportOne(b, tenant, item), tenant,
      if (tenant, item) !in b.accounts && Free(b.devices, tenant) > 0 then 1 else 0)
  {
    FreeIsRoom(b.devices, tenant);
    var choice := SelectDevice(b.devices, tenant);
    if choice.Some? {
      FreeAfterOne(b.devices, tenant, choice.value);
      TotalAfterOne(b.devices, choice.value);
    }
  }

  /** A real import deploys as many distinct new accounts as there are free places, and
      every deployment takes one place. */
  lemma {:induction false} DeploysUpToCapacity(b: Books, tenant: string, items: seq<string>)
    ensures Deployed(b, ImportAll(b, tenant, items), tenant,
      Min(|ToSet(NewItems(b, tenant, items))|, Free(b.devices, tenant)))
  {
    if items != [] {
      var front, item := items[..|items| - 1], items[|items| - 1];
      DeploysUpToCapacity(b, tenant, front);
      StoredAfter(b, tenant, front);
      var before := ImportAll(b, tenant, front);
      OneDeployed(before, tenant, item);
      NewItemsGrow(b, tenant, items);
      assert (tenant, item) in before.accounts <==> (tenant, item) in b.accounts || item in NewItems(b, tenant, front);
    }
  }

  lemma NewItemsGrow(b: Books, tenant: string, items: seq<string>)
    requires items != []
    ensures
      var front, item := items[..|items| - 1], items[|items| - 1];
      |ToSet(NewItems(b, tenant, items))| == |ToSet(NewItems(b, tenant, front))|
        + if (tenant, item) in b.accounts || item in NewItems(b, tenant, front) then 0 else 1
  {
    var front, item := items[..|items| - 1], items[|items| - 1];
    if (tenant, item) in b.accounts || item in NewItems(b, tenant, front) {
      assert ToSet(NewItems(b, tenant, items)) == ToSet(NewItems(b, tenant, front));
    } else {
      assert ToSet(NewItems(b, tenant, items)) == ToSet(NewItems(b, tenant, front)) + {item};
    }
  }

  /** Requested twice. */
  predicate Repeated(items: seq<string>, x: string) {
    exists i, j :: 0 <= i < j < |items| && items[i] == x && items[j] == x
  }

  lemma RepeatedNext(items: seq<string>, last: string, x: string)
    ensures Repeated(items + [last], x) <==> Repeated(items, x) || (last == x && x in items)
  {
    var all := items + [last];
    if Repeated(items, x) {
      var i, j :| 0 <= i < j < |items| && items[i] == x && items[j] == x;
      assert all[i] == x && all[j] == x;
    }
    if last == x && x in items {
      var i := Locate(items, x);
      assert all[i] == x && all[|items|] == x;
    }
  }

  lemma {:induction false} NewItemsAre(b: Books, tenant: string, items: seq<string>, x: string)
    ensures x in NewItems(b, tenant, items) <==> x in items && (tenant, x) !in b.accounts
  {
    if items != [] {
      var n := |items| - 1;
      NewItemsAre(b, tenant, items[..n], x);
      assert items == items[..n] + [items[n]];
    }
  }

  /** An account is reported as a duplicate exactly when it is stored already or, unless this is
      a dry run, requested twice. */
  lemma {:induction false} DuplicatesReported(b: Books, tenant: string, items: seq<string>, dryRun: bool, x: string)
    ensures (x, DuplicateAccount) in FailuresOf(b, tenant, items, dryRun)
      <==> (x in items && (tenant, x) in b.accounts) || (!dryRun && Repeated(items, x))
  {
    if items != [] {
      var n := |items| - 1;
      var front, item := items[..n], items[n];
      DuplicatesReported(b, tenant, front, dryRun, x);
      assert items == front + [item];
      RepeatedNext(front, item, x);
      StoredAfter(b, tenant, front);
      NewItemsAre(b, tenant, front, item);
    }
  }

  /** What an import writes for one account it adds. */
  ghost predicate Recorded(b: Books, after: Books, tenant: string, item: string, failures: seq<(string, Failure)>) {
    && (tenant, item) in after.accounts
    && var row := after.accounts[(tenant, item)];
      if row.device.None? then row.status == Imported && (item, NoDeviceCapacity) in failures
      else
        && row.status == Deploying && |b.deploys| <= |after.deploys|
        && Deploy(item, row.device.value) in after.deploys[|b.deploys|..]
        && exists i :: PlacedAt(after.devices, tenant, row.device.value, i)
  }

  ghost predicate PlacedAt(devices: seq<Device>, tenant: string, id: string, i: nat) {
    i < |devices| && devices[i].tenant == tenant && devices[i].id == id
  }

  lemma {:induction false} EveryNewAccountRecorded(b: Books, tenant: string, items: seq<string>)
    ensures
      var after := ImportAll(b, tenant, items);
      && b.deploys <= after.deploys
      && (forall key :: key in b.accounts ==> key in after.accounts && after.accounts[key] == b.accounts[key])
      && forall item :: item in NewItems(b, tenant, items) ==>
        Recorded(b, after, tenant, item, FailuresOf(b, tenant, items, false))
  {
    if items != [] {
      var front, item := items[..|items| - 1], items[|items| - 1];
      EveryNewAccountRecorded(b, tenant, front);
      StoredAfter(b, tenant, front);
      var before, after := ImportAll(b, tenant, front), ImportAll(b, tenant, items);
      forall k | k in NewItems(b, tenant, items)
        ensures Recorded(b, after, tenant, k, FailuresOf(b, tenant, items, false))
      {
        if k in NewItems(b, tenant, front) {
          StillRecorded(
            b, before, tenant, item, k, FailuresOf(b, tenant, front, false), FailuresOf(b, tenant, items, false));
        } else {
          NowRecorded(b, before, tenant, item, FailuresOf(b, tenant, items, false));
        }
      }
    }
  }

  lemma StillRecorded(
    b: Books, before: Books, tenant: string, item: string, k: string, was: seq<(string, Failure)>,
    failures: seq<(string, Failure)>)
    requires Recorded(b, before, tenant, k, was) && was <= failures && b.deploys <= before.deploys
    ensures Recorded(b, ImportOne(before, tenant, item), tenant, k, failures)
  {
    var after, row := ImportOne(before, tenant, item), before.accounts[(tenant, k)];
    if row.device.Some? {
      var i :| PlacedAt(before.devices, tenant, row.device.value, i);
      assert PlacedAt(after.devices, tenant, row.device.value, i);
      assert before.deploys[|b.deploys|..] <= after.deploys[|b.deploys|..];
    }
  }

  lemma NowRecorded(b: Books, before: Books, tenant: string, item: string, failures: seq<(string, Failure)>)
    requires (tenant, item) !in before.accounts && b.deploys <= before.deploys
    requires SelectDevice(before.devices, tenant).None? ==> (item, NoDeviceCapacity) in failures
    ensures Recorded(b, ImportOne(before, tenant, item), tenant, item, failures)
  {
    var after, choice := ImportOne(before, tenant, item), SelectDevice(before.devices, tenant);
    if choice.Some? {
      var id := before.devices[choice.value].id;
      assert PlacedAt(after.devices, tenant, id, choice.value);
      assert after.deploys[|b.deploys|..] == before.deploys[|b.deploys|..] + [Deploy(item, id)];
    }
  }

  /** No device is pushed past its capacity, and those that gained an account end level:
      at most one account ahead of any other enabled device of the tenant. */
  lemma {:induction false} ImportStaysLevel(b: Books, tenant: string, items: seq<string>)
    ensures
      var after := ImportAll(b, tenant, items).devices;
      && Grown(b.devices, after)
      && forall i :: 0 <= i < |after| && after[i].used > b.devices[i].used ==>
        after[i].tenant == tenant && Balanced(after, tenant, i)
  {
    if items != [] {
      ImportStaysLevel(b, tenant, items[..|items| - 1]);
      var before := ImportAll(b, tenant, items[..|items| - 1]);
      var choice := SelectDevice(before.devices, tenant);
      if (tenant, items[|items| - 1]) !in before.accounts && choice.Some? {
        LevelAfterOne(b.devices, before.devices, tenant, choice.value);
      }
    }
  }

  lemma LevelAfterOne(first: seq<Device>, devices: seq<Device>, tenant: string, i: nat)
    requires LeastLoaded(devices, tenant, i) && Grown(first, devices)
    requires forall k :: 0 <= k < |devices| && devices[k].used > first[k].used ==>
      devices[k].tenant == tenant && Balanced(devices, tenant, k)
    ensures Grown(first, OneMore(devices, i))
    ensures forall k :: 0 <= k < |devices| && OneMore(devices, i)[k].used > first[k].used ==>
      OneMore(devices, i)[k].tenant == tenant && Balanced(OneMore(devices, i), tenant, k)
  {
    PlacedIsBalanced(devices, tenant, i);
    forall k | 0 <= k < |devices| && devices[k].used > first[k].used && k != i
      ensures Balanced(OneMore(devices, i), tenant, k)
    {
      StaysBalanced(devices, tenant, k, i);
    }
  }

  /** How many accounts a run reports as succeeded. */
  function SucceededOf(b: Books, tenant: string, items: seq<string>, dryRun: bool): nat {
    if dryRun then |NewItems(b, tenant, items)|
    else Min(|ToSet(NewItems(b, tenant, items))|, Free(b.devices, tenant))
  }

  lemma {:induction false} FailuresCounted(b: Books, tenant: string, items: seq<string>, dryRun: bool)
    ensures |FailuresOf(b, tenant, items, dryRun)| + SucceededOf(b, tenant, items, dryRun) == |items|
  {
    if items != [] {
      var front, item := items[..|items| - 1], items[|items| - 1];
      FailuresCounted(b, tenant, front, dryRun);
      if !dryRun {
        var before := ImportAll(b, tenant, front);
        DeploysUpToCapacity(b, tenant, front);
        StoredAfter(b, tenant, front);
        FreeIsRoom(before.devices, tenant);
        NewItemsGrow(b, tenant, items);
        assert (tenant, item) in before.accounts
          <==> (tenant, item) in b.accounts || item in NewItems(b, tenant, front);
      }
    }
  }

  /** A dry run reports what the real run then does exactly when no new account is requested
      twice and every one of them finds a free place. */
  lemma DryRunPredictsIff(b: Books, tenant: string, items: seq<string>)
    ensures SucceededOf(b, tenant, items, true) == SucceededOf(b, tenant, items, false)
      <==> NoRepeats(NewItems(b, tenant, items)) && |NewItems(b, tenant, items)| <= Free(b.devices, tenant)
  {
    NoRepeatsIffDistinct(NewItems(b, tenant, items));
  }

  lemma OneItem(b: Books, tenant: string, item: string)
    ensures ImportAll(b, tenant, [item]) == ImportOne(b, tenant, item)
  {
    assert [item][..0] == [];
    assert ImportAll(b, tenant, [item][..0]) == b;
  }

  /** The books and the failures after these items. */
  predicate ImportedSoFar(
    b: Books, after: Books, failures: seq<(string, Failure)>, tenant: string, items: seq<string>, dryRun: bool)
  {
    after == BooksAfter(b, tenant, items, dryRun) && failures == FailuresOf(b, tenant, items, dryRun)
  }

  lemma OneMoreItem(
    b: Books, before: Books, failures: seq<(string, Failure)>, tenant: string, items: seq<string>, n: nat, dryRun: bool)
    requires n < |items| && ImportedSoFar(b, before, failures, tenant, items[..n], dryRun)
    ensures ImportedSoFar(
      b, BooksAfter(before, tenant, [items[n]], dryRun), failures + FailureOf(before, tenant, items[n], dryRun),
      tenant, items[..n + 1], dryRun)
  {
    assert items[..n + 1][..n] == items[..n];
    OneItem(before, tenant, items[n]);
  }

  /** Two requests for one place: a dry run reports both as succeeding, whether they name
      one account twice or two accounts, and the real run then deploys one. */
  lemma DryRunMiscounts(second: string)
    ensures
      var b := Books(map[], [Device("t", "d", true, 1, 0)], []);
      SucceededOf(b, "t", ["a", second], true) == 2 && SucceededOf(b, "t", ["a", second], false) == 1
  {
    var b := Books(map[], [Device("t", "d", true, 1, 0)], []);
    assert ["a", second][..1] == ["a"] && ["a"][..0] == [];
    assert NewItems(b, "t", ["a"]) == ["a"];
    assert NewItems(b, "t", ["a", second]) == ["a", second];
    assert "a" in ToSet(["a", second]);
    assert b.devices[..0] == [] && Free(b.devices, "t") == 1;
  }

  class Import {
    var accounts: map<(string, string), Account>
    var devices: seq<Device>
    var deploys: seq<Deploy>

    constructor (b: Books)
      ensures Snapshot() == b
    {
      accounts, devices, deploys := b.accounts, b.devices, b.deploys;
    }

    function Snapshot(): Books
      reads this
    {
      Books(accounts, devices, deploys)
    }

    /** Imports the accounts in order. Every request is counted once; a dry run writes
        nothing; a real run deploys new accounts while places are free. */
    method ImportAccounts(tenant: string, items: seq<string>, dryRun: bool)
      returns (succeeded: nat, failed: nat, failures: seq<(string, Failure)>)
      modifies this
      ensures succeeded + failed == |items| && failed == |failures|
      ensures succeeded == SucceededOf(old(Snapshot()), tenant, items, dryRun)
      ensures failures == FailuresOf(old(Snapshot()), tenant, items, dryRun)
      ensures Snapshot() == BooksAfter(old(Snapshot()), tenant, items, dryRun)
    {
      FailuresCounted(Snapshot(), tenant, items, dryRun);
      succeeded, failed, failures := ImportItems(tenant, items, dryRun);
    }

    method ImportItems(tenant: string, items: seq<string>, dryRun: bool)
      returns (succeeded: nat, failed: nat, failures: seq<(string, Failure)>)
      modifies this
      ensures succeeded + failed == |items| && failed == |failures|
      ensures failures == FailuresOf(old(Snapshot()), tenant, items, dryRun)
      ensures Snapshot() == BooksAfter(old(Snapshot()), tenant, items, dryRun)
    {
      ghost var b := Snapshot();
      succeeded, failed, failures := 0, 0, [];
      for n := 0 to |items|
        invariant succeeded + failed == n && failed == |failures|
        invariant ImportedSoFar(b, Snapshot(), failures, tenant, items[..n], dryRun)
      {
        OneMoreItem(b, Snapshot(), failures, tenant, items, n, dryRun);
        var failure := ImportItem(tenant, items[n], dryRun);
        if failure.Some? {
          failed, failures := failed + 1, failures + [(items[n], failure.value)];
        } else {
          assert failures + [] == failures;
          succeeded := succeeded + 1;
        }
      }
      assert items[..|items|] == items;
    }

    method ImportItem(tenant: string, item: string, dryRun: bool) returns (failure: Option<Failure>)
      modifies this
      ensures Snapshot() == BooksAfter(old(Snapshot()), tenant, [item], dryRun)
      ensures FailureOf(old(Snapshot()), tenant, item, dryRun) == if failure.Some? then [(item, failure.value)] else []
    {
      OneItem(Snapshot(), tenant, item);
      if (tenant, item) in accounts {
        return Some(DuplicateAccount);
      }
      if dryRun {
        return None;
      }
      accounts := accounts[(tenant, item) := Account(Imported, None)];
      var choice := SelectDevice(devices, tenant);
      if choice.None? {
        return Some(NoDeviceCapacity);
      }
      Place(tenant, item, choice.value);
      return None;
    }

    method Place(tenant: string, item: string, i: nat)
      requires i < |devices|
      modifies this
      ensures devices == OneMore(old(devices), i) && deploys == old(deploys) + [Deploy(item, old(devices)[i].id)]
      ensures accounts == old(accounts)[(tenant, item) := Account(Deploying, Some(old(devices)[i].id))]
    {
      var device := devices[i];
      deploys := deploys + [Deploy(item, device.id)];
      devices := devices[i := device.(used := device.used + 1)];
      accounts := accounts[(tenant, item) := Account(Deploying, Some(device.id))];
    }
  }
}
