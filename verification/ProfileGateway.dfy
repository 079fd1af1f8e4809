/** comment_campaign/profile_gateway.py: which profile leases are held while browsers start,
    fail and close. */
module ProfileGateway {
  import opened Sorting
  import opened OpeningEffects
  import opened OpeningCalls

  /** The outside of the gateway: the browser provider, the sessions, the lease server, profile
      discovery and the store. A call may have its effect and still report a failure; asking
      whether a browser is active may fail but never lies. Every call is remembered. */
  class Outside {
    var live: set<string>
    ghost var log: seq<Event>

    constructor ()
      ensures live == {} && log == []
    {
      live, log := {}, [];
    }

    /** The raw ids discovery lists; None when it fails. */
    method Discover() returns (listed: Option<set<string>>)
      modifies this`log
      ensures log == old(log) + [Event(Discovering(listed), Fine)]
    {
      listed := *;
      log := log + [Event(Discovering(listed), Fine)];
    }

    /** A lease that is not granted is refused as a profile that did not start. */
    method Take(key: Key) returns (reply: Reply)
      modifies this`log
      ensures log == old(log) + [Event(Taking(key), reply)]
      ensures reply.Refused? ==> reply.code == ProfileStartFailed
    {
      reply := *;
      if reply.Refused? {
        reply := Refused(ProfileStartFailed);
      }
      log := log + [Event(Taking(key), reply)];
    }

    /** Any other call without an answer to use. */
    method Await(call: Call) returns (reply: Reply)
      modifies this`log
      ensures log == old(log) + [Event(call, reply)]
    {
      reply := *;
      log := log + [Event(call, reply)];
    }

    method Start(raw: string) returns (reply: Reply)
      modifies this
      ensures log == old(log) + [Event(Starting(raw), reply)]
      ensures forall r :: r != raw ==> (r in live <==> r in old(live))
    {
      if * {
        live := live + {raw};
      }
      reply := Await(Starting(raw));
    }

    method Stop(raw: string) returns (reply: Reply)
      modifies this
      ensures log == old(log) + [Event(Stopping(raw), reply)]
      ensures live <= old(live) && forall r :: r != raw ==> (r in live <==> r in old(live))
    {
      if * {
        live := live - {raw};
      }
      reply := Await(Stopping(raw));
    }

    method IsActive(raw: string) returns (reply: Reply, active: bool)
      modifies this`log
      ensures log == old(log) + [Event(Inspecting(raw, active), reply)]
      ensures reply.Fine? ==> active == (raw in live)
    {
      active := raw in live;
      reply := Await(Inspecting(raw, active));
    }
  }

  class Gateway {
    const outside: Outside
    const hasFactory: bool
    const hasDiscovery: bool
    const closeAttempts: int
    /** The store: profile metadata, and the raw id behind each ref. */
    var metadata: map<string, Metadata>
    var rawIds: map<string, string>
    var leases: set<Key>
    var rawToRef: map<string, string>
    var confirmedClosed: set<string>
    /** Raw ids this gateway has started and not since confirmed inactive. */
    ghost var mine: set<string>

    constructor (outside: Outside, hasFactory: bool, hasDiscovery: bool, closeAttempts: int)
      ensures this.outside == outside && this.closeAttempts == closeAttempts
      ensures this.hasFactory == hasFactory && this.hasDiscovery == hasDiscovery
      ensures leases == {} && rawToRef == map[] && confirmedClosed == {} && mine == {}
      ensures Guarded()
    {
      this.outside, this.closeAttempts := outside, closeAttempts;
      this.hasFactory, this.hasDiscovery := hasFactory, hasDiscovery;
      metadata, rawIds := map[], map[];
      leases, rawToRef, confirmedClosed, mine := {}, map[], {}, {};
    }

    /** The store gives every profile its own raw id. */
    ghost predicate DistinctIds()
      reads this
    {
      DistinctRaws(rawIds)
    }

    ghost function Seen(): View
      reads this, outside
    {
      View(metadata, leases, mine, outside.live)
    }

    /** Every browser this gateway may still be running holds its profile lease. */
    ghost predicate Guarded()
      reads this
    {
      GuardedBy(rawIds, mine, leases)
    }

    /** Every running browser holds its profile lease. */
    ghost predicate LiveGuarded()
      reads this, outside
    {
      GuardedBy(rawIds, outside.live, leases)
    }

    /** The gateway maps a raw id only to the ref it belongs to. */
    ghost predicate Mapped()
      reads this
    {
      MappedBy(rawIds, rawToRef)
    }

    predicate Resolvable(ref: string)
      reads this
    {
      Usable(Known(), ref)
    }

    /** What resolving reads. */
    function Known(): Store
      reads this
    {
      Store(metadata, rawIds, hasDiscovery)
    }

    /** Refuses a profile that is missing, disabled or unhealthy, or that discovery, if there is
        any, does not list. */
    method Resolve(ref: string) returns (r: Result<string, Code>, ghost found: seq<Option<set<string>>>)
      modifies outside`log
      ensures outside.log == old(outside.log) + Discoveries(found)
      ensures r.Ok? ==> Resolves(Known(), ref, found) && r.value == rawIds[ref]
      ensures r.Err? ==> Refuses(Known(), ref, found, r.error)
    {
      found := [];
      if !(ref in metadata && metadata[ref].enabled && metadata[ref].healthy) {
        return Err(ProfileStartFailed), found;
      }
      if ref !in rawIds || rawIds[ref] == "" {
        return Err(ProfileStartFailed), found;
      }
      if hasDiscovery {
        var listed := outside.Discover();
        found := [listed];
        if listed.None? {
          return Err(AdsPowerUnavailable), found;
        }
        if rawIds[ref] !in listed.value {
          return Err(ProfileStartFailed), found;
        }
      }
      return Ok(rawIds[ref]), found;
    }

    method ResolveAll(refs: seq<string>)
      returns (r: Result<seq<string>, Code>, ghost found: seq<Option<set<string>>>)
      modifies outside`log
      ensures outside.log == old(outside.log) + Discoveries(found)
      ensures r.Ok? <==> Admitted(Known(), refs, found)
      ensures r.Ok? ==> |r.value| == |refs|
      ensures r.Ok? ==> forall i :: 0 <= i < |refs| ==> refs[i] in rawIds && r.value[i] == rawIds[refs[i]]
      ensures r.Err? ==> exists i :: RefusedAt(Known(), refs, found, i, r.error)
    {
      var raws: seq<string> := [];
      found := [];
      ghost var store := Known();
      for i := 0 to |refs|
        invariant outside.log == old(outside.log) + Discoveries(found)
        invariant |raws| == i && forall j :: 0 <= j < i ==> refs[j] in rawIds && raws[j] == rawIds[refs[j]]
        invariant Admitted(store, refs[..i], found)
      {
        var raw;
        ghost var listed;
        ghost var before := found;
        raw, listed := Resolve(refs[i]);
        found := found + listed;
        assert Discoveries(found) == Discoveries(before) + Discoveries(listed);
        if raw.Err? {
          RefusedNext(store, refs, i, before, listed, raw.error);
          return Err(raw.error), found;
        }
        ResolvesNext(store, refs, i, before, listed);
        raws := raws + [raw.value];
      }
      assert refs[..|refs|] == refs;
      return Ok(raws), found;
    }

    /** Without a lease factory every acquisition succeeds and nothing is recorded. */
    method Acquire(key: Key) returns (raised: Reply, ghost events: seq<Event>)
      modifies this`leases, this`confirmedClosed, outside`log
      ensures outside.log == old(outside.log) + events
      ensures Went(false, TakingOf(hasFactory, key), events, raised)
      ensures raised.Fine? ==> leases == if hasFactory then old(leases) + {key} else old(leases)
      ensures !raised.Fine? ==> leases == old(leases)
      ensures raised in {Fine, Cancelled, Refused(RedisUnavailable), Refused(ProfileStartFailed)}
    {
      events := [];
      if !hasFactory {
        LookInto(false, [], events, Fine);
        return Fine, events;
      }
      var reply := outside.Take(key);
      events := [Event(Taking(key), reply)];
      LookInto(false, [Taking(key)], events, if reply.Broken? then Refused(RedisUnavailable) else reply);
      if reply.Broken? {
        return Refused(RedisUnavailable), events;
      }
      if !reply.Fine? {
        return reply, events;
      }
      leases := leases + {key};
      if key.ProfileKey? {
        confirmedClosed := confirmedClosed - {key.ref};
      }
      return Fine, events;
    }

    /** The lease is forgotten before its release is awaited, so also when that fails or is
        cancelled. */
    method Release(key: Key) returns (cancelled: bool, ghost events: seq<Event>)
      modifies this`leases, outside`log
      ensures outside.log == old(outside.log) + events
      ensures |events| == (if key in old(leases) then 1 else 0) && CutAt(events, cancelled)
      ensures key in old(leases) ==> events[0].call == Returning(key)
      ensures leases == old(leases) - {key} && (cancelled ==> key in old(leases))
    {
      cancelled, events := false, [];
      if key in leases {
        leases := leases - {key};
        var reply := outside.Await(Returning(key));
        events := [Event(Returning(key), reply)];
        cancelled := reply.Cancelled?;
      }
    }

    /** Stops the browser until it is seen inactive, as often as configured; an attempt that
        fails counts. */
    method ConfirmClosed(raw: string) returns (confirmed: bool, cancelled: bool, ghost events: seq<Event>)
      modifies outside
      ensures outside.log == old(outside.log) + events
      ensures exists n :: 0 <= n <= Tries(closeAttempts) && Attempted(raw, events, n, confirmed, cancelled)
      ensures !confirmed && !cancelled ==> Attempted(raw, events, Tries(closeAttempts), false, false)
      ensures confirmed ==> raw !in outside.live && !cancelled
      ensures outside.live <= old(outside.live)
    {
      confirmed, cancelled, events := false, false, [];
      for attempt := 0 to (if closeAttempts > 0 then closeAttempts else 0)
        invariant outside.log == old(outside.log) + events && !confirmed && !cancelled
        invariant Attempted(raw, events, attempt, false, false)
        invariant outside.live <= old(outside.live)
      {
        ghost var before, more := events, [];
        confirmed, cancelled, more := TryClose(raw);
        AttemptedAgain(raw, events, attempt, more, 1, confirmed, cancelled);
        events := events + more;
        if confirmed || cancelled {
          return;
        }
      }
    }

    method TryClose(raw: string) returns (confirmed: bool, cancelled: bool, ghost events: seq<Event>)
      modifies outside
      ensures outside.log == old(outside.log) + events && Attempted(raw, events, 1, confirmed, cancelled)
      ensures confirmed ==> raw !in outside.live
      ensures outside.live <= old(outside.live)
    {
      var reply := outside.Stop(raw);
      events := [Event(Stopping(raw), reply)];
      StopOnly(raw, reply);
      if !reply.Fine? {
        return false, reply.Cancelled?, events;
      }
      var active;
      reply, active := outside.IsActive(raw);
      events := events + [Event(Inspecting(raw, active), reply)];
      StopAndInspect(raw, active, reply);
      return reply.Fine? && !active, reply.Cancelled?, events;
    }

    /** Closes each browser, releasing a lease only once its browser is seen inactive; a
        cancellation leaves the browsers not yet dealt with as they are. The answer tells how
        the last attempt at each went; `ever` whether any attempt saw it inactive. */
    method CloseMany(raws: seq<string>)
      returns (closed: map<string, bool>, cancelled: bool, ghost ever: map<string, bool>, ghost events: seq<Event>)
      modifies this`leases, this`rawToRef, this`confirmedClosed, this`mine, outside
      ensures outside.log == old(outside.log) + events && CutAt(events, cancelled)
      ensures ClosedByCalls(closed, ever, events, closeAttempts)
      ensures forall raw :: raw in closed ==> raw in raws
      ensures !cancelled ==> forall raw :: raw in raws ==> raw in closed
      ensures Remembers(closed, ever) && (Distinct(raws) ==> ever == closed)
      ensures forall raw :: Confirmed(ever, raw) ==> raw !in outside.live
      ensures outside.live <= old(outside.live)
      ensures ClosingDid(old(mine), mine, old(rawToRef), rawToRef, old(leases), leases, ever)
    {
      closed, cancelled, ever, events := map[], false, map[], [];
      for i := 0 to |raws|
        invariant outside.log == old(outside.log) + events && CutAt(events, false)
        invariant ClosedByCalls(closed, ever, events, closeAttempts)
        invariant forall raw :: Confirmed(ever, raw) ==> raw !in outside.live
        invariant outside.live <= old(outside.live)
        invariant ClosingStands(
          old(mine), mine, old(rawToRef), rawToRef, old(leases), leases, closed, ever, raws, i)
      {
        var raw := raws[i];
        ghost var mine', mapped', leases' := mine, rawToRef, leases;
        var confirmed;
        ghost var more;
        confirmed, cancelled, more := CloseNext(raw, closed, ever, events);
        events := events + more;
        if cancelled && !confirmed {
          return;
        }
        ClosingGoesOn(
          old(mine), mine', old(rawToRef), mapped', old(leases), leases', closed, ever, raws, i, confirmed);
        closed := closed[raw := confirmed];
        ever := ever[raw := confirmed || Confirmed(ever, raw)];
        if cancelled {
          return;
        }
      }
      assert raws[..|raws|] == raws;
    }

    /** Closes one browser more, and accounts for its calls. */
    method CloseNext(
      raw: string, ghost closed: map<string, bool>, ghost ever: map<string, bool>, ghost before: seq<Event>)
      returns (confirmed: bool, cancelled: bool, ghost more: seq<Event>)
      requires CutAt(before, false) && ClosedByCalls(closed, ever, before, closeAttempts)
      modifies this`leases, this`rawToRef, this`confirmedClosed, this`mine, outside
      ensures outside.log == old(outside.log) + more && CutAt(before + more, cancelled)
      ensures !confirmed ==> ClosedByCalls(closed, ever, before + more, closeAttempts)
      ensures confirmed || !cancelled ==>
        ClosedByCalls(
          closed[raw := confirmed], ever[raw := confirmed || Confirmed(ever, raw)], before + more, closeAttempts)
      ensures confirmed ==> raw !in outside.live
      ensures outside.live <= old(outside.live)
      ensures mine == old(mine) - if confirmed then {raw} else {}
      ensures rawToRef == old(rawToRef) - if confirmed then {raw} else {}
      ensures leases == old(leases)
        - if confirmed && raw in old(rawToRef) then {ProfileKey(old(rawToRef)[raw])} else {}
    {
      confirmed, cancelled, more := CloseOne(raw);
      CutLater(before, more, cancelled);
      ClosedByMore(closed, ever, before, more, closeAttempts, raw, confirmed, cancelled);
    }

    /** Closes one browser; once it is seen inactive its mapping and its lease go. */
    method CloseOne(raw: string) returns (confirmed: bool, cancelled: bool, ghost events: seq<Event>)
      modifies this`leases, this`rawToRef, this`confirmedClosed, this`mine, outside
      ensures outside.log == old(outside.log) + events && CutAt(events, cancelled) && ClosingOf(events, raw)
      ensures confirmed <==> SeenInactive(events, raw)
      ensures !confirmed && !cancelled ==> Stops(events, raw) >= Tries(closeAttempts)
      ensures confirmed ==> raw !in outside.live
      ensures outside.live <= old(outside.live)
      ensures mine == old(mine) - if confirmed then {raw} else {}
      ensures rawToRef == old(rawToRef) - if confirmed then {raw} else {}
      ensures leases == old(leases)
        - if confirmed && raw in old(rawToRef) then {ProfileKey(old(rawToRef)[raw])} else {}
    {
      confirmed, cancelled, events := ConfirmClosed(raw);
      assert rawToRef == rawToRef - {};
      if confirmed {
        mine := mine - {raw};
        if raw in rawToRef {
          var ref := rawToRef[raw];
          rawToRef := rawToRef - {raw};
          confirmedClosed := confirmedClosed + {ref};
          ghost var released;
          cancelled, released := Release(ProfileKey(ref));
          CutLater(events, released, cancelled);
          events := events + released;
        } else {
          assert rawToRef == rawToRef - {raw};
        }
      }
    }

    /** Releases the leases of profiles never started or confirmed closed, in batch order. */
    method ReleaseUnstarted(refs: seq<string>, raws: seq<string>, started: seq<string>, closed: map<string, bool>)
      returns (cancelled: bool, ghost visited: nat, ghost events: seq<Event>)
      requires |refs| == |raws|
      modifies this`leases, outside`log
      ensures outside.log == old(outside.log) + events && CutAt(events, cancelled) && Aside(events)
      ensures visited <= |refs| && (!cancelled ==> visited == |refs|)
      ensures forall key :: key in leases <==>
        key in old(leases) && !Idle(refs[..visited], raws[..visited], started, closed, key)
    {
      cancelled, visited, events := false, 0, [];
      for i := 0 to |refs|
        invariant visited == i
        invariant outside.log == old(outside.log) + events && CutAt(events, false) && Aside(events)
        invariant forall key :: key in leases <==>
          key in old(leases) && !Idle(refs[..i], raws[..i], started, closed, key)
      {
        IdleStep(refs, raws, started, closed, i);
        visited := i + 1;
        if raws[i] !in started || (raws[i] in closed && closed[raws[i]]) {
          ghost var released;
          cancelled, released := Release(ProfileKey(refs[i]));
          CutLater(events, released, cancelled);
          events := events + released;
          if cancelled {
            return;
          }
        }
      }
    }

    /** Marks the profiles whose browser may still run as disabled and unhealthy; a store
        that raises leaves the later ones unmarked. */
    method QuarantineUnclosed(refs: seq<string>, raws: seq<string>, closed: map<string, bool>)
      returns (broken: bool, ghost marked: nat, ghost events: seq<Event>)
      requires |refs| == |raws|
      modifies this`metadata, outside`log
      ensures outside.log == old(outside.log) + events && CutAt(events, broken) && Aside(events)
      ensures marked <= |refs| && (!broken ==> marked == |refs|)
      ensures Quarantined(old(metadata), metadata, Unconfirmed(refs[..marked], raws[..marked], closed))
    {
      broken, marked, events := false, 0, [];
      for i := 0 to |refs|
        invariant outside.log == old(outside.log) + events && CutAt(events, false) && Aside(events)
        invariant marked == i && Quarantined(old(metadata), metadata, Unconfirmed(refs[..i], raws[..i], closed))
      {
        UnconfirmedStep(refs, raws, closed, i);
        var done := true;
        if raws[i] in closed && !closed[raws[i]] {
          ghost var more;
          broken, done, more := Mark(refs[i]);
          CutLater(events, more, broken);
          events := events + more;
        }
        marked := if done then i + 1 else i;
        if broken {
          return;
        }
      }
    }

    /** Reads the profile's metadata and, if there is any, writes it back marked; the store may
        raise at either call, at the second also after it has written. */
    method Mark(ref: string) returns (broken: bool, done: bool, ghost events: seq<Event>)
      modifies this`metadata, outside`log
      ensures outside.log == old(outside.log) + events && CutAt(events, broken) && Aside(events)
      ensures !broken ==> done
      ensures metadata == if done && ref in old(metadata) then old(metadata)[ref := Metadata(false, false)]
        else old(metadata)
    {
      var reply := outside.Await(Marking(ref));
      events := [Event(Marking(ref), reply)];
      if !reply.Fine? {
        return true, false, events;
      }
      if ref in metadata {
        metadata := metadata[ref := Metadata(false, false)];
        reply := outside.Await(Marking(ref));
        events := events + [Event(Marking(ref), reply)];
      }
      return !reply.Fine?, true, events;
    }

    /** Handling a failed opening: close what was started, release what is not running,
        quarantine the rest. `cut` says where that was itself cut short. */
    method CleanUp(b: Batch, started: seq<string>)
      returns (cut: Option<Stage>, closed: map<string, bool>, ghost c: Course, ghost later: seq<Event>)
      requires Proper(b) && started <= b.raws && MapsStarted(rawToRef, b, started)
      modifies this`leases, this`rawToRef, this`confirmedClosed, this`metadata, this`mine, outside
      ensures outside.log == old(outside.log) + later && CutAt(later, cut.Some?)
      ensures ClosedByCalls(closed, closed, later, closeAttempts)
      ensures Fits(b, c) && c.started == started && c.closed == closed && cut != Some(Finishing)
      ensures Reached(if cut.Some? then CutShort(cut.value) else CutShort(Finishing), b, c)
      ensures forall key :: key in leases <==> key in old(leases) && !GivenUp(b, c, key)
      ensures Quarantined(old(metadata), metadata, Marked(b, c))
      ensures forall raw :: raw in mine <==> raw in old(mine) && !Confirmed(closed, raw)
      ensures forall raw :: Confirmed(closed, raw) ==> raw !in outside.live
      ensures outside.live <= old(outside.live)
      ensures forall raw :: raw in rawToRef ==> raw in old(rawToRef) && rawToRef[raw] == old(rawToRef)[raw]
    {
      DistinctPrefix(b.raws, |started|);
      var cancelled;
      ghost var ever;
      closed, cancelled, ever, later := CloseMany(started);
      c := Course(started, closed, 0, 0);
      GivenUpMeans(b, c, old(rawToRef));
      if cancelled {
        return Some(Closing), closed, c, later;
      }
      ghost var visited, marked, more;
      cancelled, visited, more := ReleaseUnstarted(b.refs, b.raws, started, closed);
      CutLater(later, more, cancelled);
      ClosedAside(closed, closed, later, more, closeAttempts);
      later := later + more;
      c := Course(started, closed, visited, 0);
      GivenUpMeans(b, c, old(rawToRef));
      if cancelled {
        return Some(Releasing), closed, c, later;
      }
      var broken;
      broken, marked, more := QuarantineUnclosed(b.refs, b.raws, closed);
      CutLater(later, more, broken);
      ClosedAside(closed, closed, later, more, closeAttempts);
      later := later + more;
      c := Course(started, closed, visited, marked);
      GivenUpMeans(b, c, old(rawToRef));
      return if broken then Some(Quarantining) else None, closed, c, later;
    }

    /** Acquires every lease of the batch, in order; stops at the first that is not granted,
        which is ordinary contention when opening for identity checks. */
    method AcquireAll(b: Batch, identity: bool) returns (raised: Reply, ghost events: seq<Event>)
      requires Proper(b) && b.hasFactory == hasFactory && (identity ==> b.campaign.None?)
      modifies this`leases, this`rawToRef, this`confirmedClosed, outside`log
      ensures outside.log == old(outside.log) + events && Went(identity, Takings(b), events, raised)
      ensures old(leases) <= leases <= old(leases) + if hasFactory then BatchKeys(b.refs, b.campaign) else {}
      ensures raised.Fine? && hasFactory ==> leases == old(leases) + BatchKeys(b.refs, b.campaign)
      ensures Remapped(old(rawToRef), rawToRef, b.refs, b.raws)
      ensures raised.Fine? ==> MappedUpTo(old(rawToRef), rawToRef, b.refs, b.raws, |b.refs|)
    {
      events := [];
      ghost var taking := if b.campaign.Some? then TakingOf(hasFactory, CampaignKey(b.campaign.value)) else [];
      if b.campaign.Some? {
        raised, events := Acquire(CampaignKey(b.campaign.value));
        if !raised.Fine? {
          EndsHere(identity, taking, events, ProfileTakings(hasFactory, b.refs), raised);
          return;
        }
      }
      ghost var more;
      raised, more := AcquireProfiles(b, identity);
      GoesOn(identity, taking, events, ProfileTakings(hasFactory, b.refs), more, raised);
      events := events + more;
    }

    method AcquireProfiles(b: Batch, identity: bool) returns (raised: Reply, ghost events: seq<Event>)
      requires Proper(b) && b.hasFactory == hasFactory
      modifies this`leases, this`rawToRef, this`confirmedClosed, outside`log
      ensures outside.log == old(outside.log) + events
      ensures Went(identity, ProfileTakings(hasFactory, b.refs), events, raised)
      ensures old(leases) <= leases <= old(leases) + if hasFactory then Keys(ToSet(b.refs)) else {}
      ensures raised.Fine? && hasFactory ==> leases == old(leases) + Keys(ToSet(b.refs))
      ensures Remapped(old(rawToRef), rawToRef, b.refs, b.raws)
      ensures raised.Fine? ==> MappedUpTo(old(rawToRef), rawToRef, b.refs, b.raws, |b.refs|)
    {
      events := [];
      for i := 0 to |b.refs|
        invariant outside.log == old(outside.log) + events
        invariant Went(identity, ProfileTakings(hasFactory, b.refs[..i]), events, Fine)
        invariant TakenUpTo(old(leases), leases, hasFactory, b.refs, i)
        invariant MappedUpTo(old(rawToRef), rawToRef, b.refs, b.raws, i)
      {
        TakenOneMore(old(leases), leases, hasFactory, b.refs, i);
        ghost var more;
        raised, more := TakeNext(b.refs, i, identity, events);
        events := events + more;
        if !raised.Fine? {
          return;
        }
        MappedNext(old(rawToRef), rawToRef, b.refs, b.raws, i);
        rawToRef := rawToRef[b.raws[i] := b.refs[i]];
      }
      assert b.refs[..|b.refs|] == b.refs;
      raised := Fine;
    }

    /** Takes the `i`-th lease after those before it. */
    method TakeNext(refs: seq<string>, i: nat, identity: bool, ghost before: seq<Event>)
      returns (raised: Reply, ghost more: seq<Event>)
      requires i < |refs| && Went(identity, ProfileTakings(hasFactory, refs[..i]), before, Fine)
      modifies this`leases, this`confirmedClosed, outside`log
      ensures outside.log == old(outside.log) + more
      ensures raised.Fine? ==> Went(identity, ProfileTakings(hasFactory, refs[..i + 1]), before + more, Fine)
      ensures !raised.Fine? ==> Went(identity, ProfileTakings(hasFactory, refs), before + more, raised)
      ensures leases == old(leases) + if raised.Fine? && hasFactory then {ProfileKey(refs[i])} else {}
    {
      raised, more := Acquire(ProfileKey(refs[i]));
      TakenNext(identity, hasFactory, refs, i, before, more, raised);
      if identity && raised == Refused(ProfileStartFailed) {
        raised := Refused(IdentityStale);
      }
    }

    /** Starts, connects and checks one browser; opening for identity checks tells apart which
        of these raised. */
    method StartOne(raw: string, identity: bool) returns (raised: Reply, ghost events: seq<Event>)
      modifies outside
      ensures outside.log == old(outside.log) + events && Went(identity, Browsing([raw]), events, raised)
      ensures StartsOf(events) == [raw]
      ensures forall r :: r in outside.live && r !in old(outside.live) ==> r == raw
    {
      OneBrowsed(raw);
      var reply := outside.Start(raw);
      raised, events := Translated(identity, Starting(raw), reply), [Event(Starting(raw), reply)];
      OneCall(identity, Starting(raw), reply);
      if !raised.Fine? {
        EndsHere(identity, [Starting(raw)], events, [Connecting(raw), Checking(raw)], raised);
        return;
      }
      ghost var more;
      raised, more := ConnectOne(raw, identity);
      GoesOn(identity, [Starting(raw)], events, [Connecting(raw), Checking(raw)], more, raised);
      StartsAdd(events, more);
      events := events + more;
    }

    method ConnectOne(raw: string, identity: bool) returns (raised: Reply, ghost events: seq<Event>)
      modifies outside`log
      ensures outside.log == old(outside.log) + events
      ensures Went(identity, [Connecting(raw), Checking(raw)], events, raised) && StartsOf(events) == []
    {
      raised, events := Ask(Connecting(raw), identity);
      if raised.Fine? {
        ghost var more;
        raised, more := Ask(Checking(raw), identity);
        GoesOn(identity, [Connecting(raw)], events, [Checking(raw)], more, raised);
        StartsAdd(events, more);
        events := events + more;
      } else {
        EndsHere(identity, [Connecting(raw)], events, [Checking(raw)], raised);
      }
    }

    method Ask(call: Call, identity: bool) returns (raised: Reply, ghost events: seq<Event>)
      requires !call.Taking? && !call.Starting?
      modifies outside`log
      ensures outside.log == old(outside.log) + events && Went(identity, [call], events, raised)
      ensures StartsOf(events) == []
    {
      var reply := outside.Await(call);
      OneCall(identity, call, reply);
      return Translated(identity, call, reply), [Event(call, reply)];
    }

    /** Starts every browser; each counts as started before its start is awaited. */
    method StartAll(raws: seq<string>, identity: bool)
      returns (raised: Reply, started: seq<string>, ghost events: seq<Event>)
      modifies this`mine, outside
      ensures outside.log == old(outside.log) + events && Went(identity, Browsing(raws), events, raised)
      ensures StartsOf(events) == started
      ensures started <= raws && (raised.Fine? ==> started == raws)
      ensures mine == old(mine) + ToSet(started)
      ensures forall raw :: raw in outside.live && raw !in old(outside.live) ==> raw in started
    {
      started, events := [], [];
      for i := 0 to |raws|
        invariant outside.log == old(outside.log) + events && Went(identity, Browsing(raws[..i]), events, Fine)
        invariant StartsOf(events) == started
        invariant started == raws[..i] && mine == old(mine) + ToSet(started)
        invariant forall raw :: raw in outside.live && raw !in old(outside.live) ==> raw in started
      {
        PrefixSet(raws, i);
        assert raws[..i + 1] == started + [raws[i]];
        started := started + [raws[i]];
        mine := mine + {raws[i]};
        ghost var more;
        raised, more := StartOne(raws[i], identity);
        BrowsingNext(identity, raws, i, events, more, raised);
        StartsAdd(events, more);
        events := events + more;
        if !raised.Fine? {
          return;
        }
      }
      assert raws[..|raws|] == raws;
      raised := Fine;
    }

    /** Takes every lease of the batch, starts every browser, and arranges them. */
    method TakeAndStart(b: Batch, identity: bool)
      returns (raised: Reply, started: seq<string>, ghost events: seq<Event>)
      requires Proper(b) && b.hasFactory == hasFactory && Resolved(rawIds, b) && (identity ==> b.campaign.None?)
      modifies this`leases, this`rawToRef, this`confirmedClosed, this`mine, outside
      ensures outside.log == old(outside.log) + events && Went(identity, Calls(b), events, raised)
      ensures StartsOf(events) == started && started <= b.raws && MapsStarted(rawToRef, b, started)
      ensures Ran(old(Seen()), Seen(), b, Interrupted, Course(started, map[], 0, 0))
      ensures raised.Fine? ==> Ran(old(Seen()), Seen(), b, Opened, Course(started, map[], 0, 0))
      ensures old(Mapped()) ==> Mapped()
    {
      ghost var before := Seen();
      raised, started, events := TakeThenStart(b, identity);
      RemappedStaysMapped(rawIds, old(rawToRef), rawToRef, b);
      NothingGivenUp(before, Seen(), b, Course(started, map[], 0, 0));
    }

    method TakeThenStart(b: Batch, identity: bool)
      returns (raised: Reply, started: seq<string>, ghost events: seq<Event>)
      requires Proper(b) && b.hasFactory == hasFactory && (identity ==> b.campaign.None?)
      modifies this`leases, this`rawToRef, this`confirmedClosed, this`mine, outside
      ensures outside.log == old(outside.log) + events && Went(identity, Calls(b), events, raised)
      ensures StartsOf(events) == started && started <= b.raws && MapsStarted(rawToRef, b, started)
      ensures raised.Fine? ==> started == b.raws
      ensures old(leases) <= leases <= old(leases) + if hasFactory then BatchKeys(b.refs, b.campaign) else {}
      ensures hasFactory && started != [] ==> leases == old(leases) + BatchKeys(b.refs, b.campaign)
      ensures Remapped(old(rawToRef), rawToRef, b.refs, b.raws) && mine == old(mine) + ToSet(started)
      ensures forall raw :: raw in outside.live && raw !in old(outside.live) ==> raw in started
    {
      started := [];
      raised, events := AcquireAll(b, identity);
      if !raised.Fine? {
        OpenedUpTo(identity, b, events, raised);
        assert ToSet(started) == {};
        AllMapped(old(rawToRef), rawToRef, b, started);
        return;
      }
      ghost var more;
      raised, started, more := StartAndArrange(b.raws, identity);
      OpenedOn(identity, b, events, more, raised);
      events := events + more;
      AllMapped(old(rawToRef), rawToRef, b, started);
    }

    method StartAndArrange(raws: seq<string>, identity: bool)
      returns (raised: Reply, started: seq<string>, ghost events: seq<Event>)
      modifies this`mine, outside
      ensures outside.log == old(outside.log) + events
      ensures Went(identity, Browsing(raws) + [Tiling, Confirming], events, raised)
      ensures StartsOf(events) == started && started <= raws && (raised.Fine? ==> started == raws)
      ensures mine == old(mine) + ToSet(started)
      ensures forall raw :: raw in outside.live && raw !in old(outside.live) ==> raw in started
    {
      raised, started, events := StartAll(raws, identity);
      if raised.Fine? {
        ghost var more;
        raised, more := Arrange(identity);
        GoesOn(identity, Browsing(raws), events, [Tiling, Confirming], more, raised);
        StartsAdd(events, more);
        events := events + more;
      } else {
        EndsHere(identity, Browsing(raws), events, [Tiling, Confirming], raised);
      }
    }

    /** Tiles the windows and confirms that the campaign and the leases still stand. */
    method Arrange(identity: bool) returns (raised: Reply, ghost events: seq<Event>)
      modifies outside`log
      ensures outside.log == old(outside.log) + events && Went(identity, [Tiling, Confirming], events, raised)
      ensures StartsOf(events) == []
    {
      raised, events := Ask(Tiling, identity);
      if raised.Fine? {
        ghost var more;
        raised, more := Ask(Confirming, identity);
        GoesOn(identity, [Tiling], events, [Confirming], more, raised);
        StartsAdd(events, more);
        events := events + more;
      } else {
        EndsHere(identity, [Tiling], events, [Confirming], raised);
      }
    }

    /** Gives the campaign lease back, if the opening took one. */
    method ReleaseCampaign(campaign: Option<string>) returns (cancelled: bool, ghost events: seq<Event>)
      modifies this`leases, outside`log
      ensures outside.log == old(outside.log) + events && CutAt(events, cancelled) && Aside(events)
      ensures leases == old(leases) - CampaignKeys(campaign) && (cancelled ==> campaign.Some?)
    {
      cancelled, events := false, [];
      if campaign.Some? {
        cancelled, events := Release(CampaignKey(campaign.value));
      }
    }

    /** What follows a failed opening; nothing catches what cuts this short. */
    method HandleFailure(b: Batch, started: seq<string>, code: Code, ghost before: View)
      returns (attempt: Attempt, ghost c: Course, ghost later: seq<Event>)
      requires Proper(b) && started <= b.raws && MapsStarted(rawToRef, b, started)
      requires Ran(before, Seen(), b, Interrupted, Course(started, map[], 0, 0))
      modifies this`leases, this`rawToRef, this`confirmedClosed, this`metadata, this`mine, outside
      ensures outside.log == old(outside.log) + later && CutAt(later, attempt.CutShort?)
      ensures ClosedByCalls(c.closed, c.closed, later, closeAttempts) && c.started == started
      ensures Ran(before, Seen(), b, attempt, c) && (attempt.Failed? || attempt.CutShort?)
      ensures attempt.Failed? ==> attempt.code == if Running(b, c) != {} then ProfileCloseFailed else code
      ensures attempt == CutShort(Finishing) ==> b.campaign.Some?
      ensures forall raw :: raw in rawToRef ==> raw in old(rawToRef) && rawToRef[raw] == old(rawToRef)[raw]
    {
      ghost var running := Seen();
      var cut, closed;
      cut, closed, c, later := CleanUp(b, started);
      if cut.Some? {
        attempt := CutShort(cut.value);
      } else {
        AllConfirmed(b, c);
        attempt := Failed(if exists raw :: raw in closed && !closed[raw] then ProfileCloseFailed else code);
        var cancelled;
        ghost var more;
        cancelled, more := ReleaseCampaign(b.campaign);
        CutLater(later, more, cancelled);
        ClosedAside(c.closed, c.closed, later, more, closeAttempts);
        later := later + more;
        if cancelled {
          attempt := CutShort(Finishing);
        }
      }
      CleanedUp(before, running, Seen(), b, c, attempt);
    }

    /** Everything after the refs are resolved. */
    method OpenResolved(b: Batch, identity: bool)
      returns (attempt: Attempt, ghost c: Course, ghost events: seq<Event>, ghost later: seq<Event>)
      requires Proper(b) && b.hasFactory == hasFactory && Resolved(rawIds, b) && (identity ==> b.campaign.None?)
      modifies this`leases, this`rawToRef, this`confirmedClosed, this`metadata, this`mine, outside
      ensures outside.log == old(outside.log) + events + later
      ensures Ends(b, identity, closeAttempts, events, later, attempt, c)
      ensures Ran(old(Seen()), Seen(), b, attempt, c)
      ensures attempt == CutShort(Finishing) ==> b.campaign.Some?
      ensures old(Mapped()) ==> Mapped()
    {
      ghost var before := Seen();
      var raised, started;
      raised, started, events := TakeAndStart(b, identity);
      c, later := Course(started, map[], 0, 0), [];
      if raised.Fine? {
        OpenedEnds(b, identity, closeAttempts, events, later, raised, Opened, c);
        return Opened, c, events, later;
      }
      if raised.Cancelled? {
        OpenedEnds(b, identity, closeAttempts, events, later, raised, Interrupted, c);
        return Interrupted, c, events, later;
      }
      var code := if raised.Refused? then raised.code else if identity then Unexpected else ProfileStartFailed;
      attempt, c, later := HandleFailure(b, started, code, before);
      FailedEnds(b, identity, closeAttempts, events, later, raised, attempt, c);
    }

    /** Resolves the refs and opens the batch they make. Without a course nothing was opened: the
        refs are empty or repeat, or one of them does not resolve. */
    method OpenBatch(refs: seq<string>, campaign: Option<string>, identity: bool)
      returns (attempt: Attempt, ghost b: Batch, ghost course: Option<Course>, ghost d: Diary)
      requires DistinctIds() && (identity ==> campaign.None?)
      modifies this`leases, this`rawToRef, this`confirmedClosed, this`metadata, this`mine, outside
      ensures outside.log == old(outside.log) + Entries(d)
      ensures course.None? ==> Seen() == old(Seen()) && Denied(old(Known()), refs, d, attempt)
      ensures course.Some? ==> refs != [] && Distinct(refs) && Admitted(old(Known()), refs, d.found)
      ensures course.Some? ==> b == Batch(refs, b.raws, campaign, hasFactory) && Proper(b) && Resolved(rawIds, b)
      ensures course.Some? ==> Ends(b, identity, closeAttempts, d.events, d.later, attempt, course.value)
      ensures course.Some? ==> Ran(old(Seen()), Seen(), b, attempt, course.value)
      ensures attempt == CutShort(Finishing) ==> campaign.Some?
      ensures old(Mapped()) ==> Mapped()
    {
      var admitted;
      admitted, d := Admit(refs, campaign);
      if admitted.Err? {
        return Failed(admitted.error), Batch(refs, [], campaign, hasFactory), None, d;
      }
      b := admitted.value;
      ghost var c, events, later;
      attempt, c, events, later := OpenResolved(admitted.value, identity);
      course, d := Some(c), Diary(d.found, events, later);
      EntriesAdd(old(outside.log), d);
    }

    /** Turns away an empty or repeating batch, and resolves the others. */
    method Admit(refs: seq<string>, campaign: Option<string>) returns (r: Result<Batch, Code>, ghost d: Diary)
      requires DistinctIds()
      modifies outside`log
      ensures outside.log == old(outside.log) + Discoveries(d.found) && d == Diary(d.found, [], [])
      ensures r.Err? ==> Denied(Known(), refs, d, Failed(r.error))
      ensures r.Ok? ==> refs != [] && Distinct(refs) && Admitted(Known(), refs, d.found)
      ensures r.Ok? ==> r.value == Batch(refs, r.value.raws, campaign, hasFactory)
      ensures r.Ok? ==> Proper(r.value) && Resolved(rawIds, r.value)
    {
      d := Diary([], [], []);
      NoRepeatsIffDistinct(refs);
      if refs == [] || !NoRepeats(refs) {
        return Err(ProfileStartFailed), d;
      }
      var resolved;
      ghost var found;
      resolved, found := ResolveAll(refs);
      d := Diary(found, [], []);
      if resolved.Err? {
        return Err(resolved.error), d;
      }
      var batch := Batch(refs, resolved.value, campaign, hasFactory);
      ResolvedIsProper(rawIds, batch);
      return Ok(batch), d;
    }

    /** Opening as both operations do it, and what it leaves of the leases of running browsers. */
    method OpenGuarded(refs: seq<string>, campaign: Option<string>, identity: bool)
      returns (attempt: Attempt, ghost b: Batch, ghost course: Option<Course>, ghost d: Diary)
      requires DistinctIds() && (identity ==> campaign.None?)
      modifies this`leases, this`rawToRef, this`confirmedClosed, this`metadata, this`mine, outside
      ensures outside.log == old(outside.log) + Entries(d)
      ensures course.None? ==> Seen() == old(Seen()) && Denied(old(Known()), refs, d, attempt)
      ensures course.Some? ==> refs != [] && Distinct(refs) && Admitted(old(Known()), refs, d.found)
      ensures course.Some? ==> b == Batch(refs, b.raws, campaign, hasFactory) && Proper(b) && Resolved(rawIds, b)
      ensures course.Some? ==> Ends(b, identity, closeAttempts, d.events, d.later, attempt, course.value)
      ensures course.Some? ==> Ran(old(Seen()), Seen(), b, attempt, course.value)
      ensures course.Some? && attempt.Failed? ==> forall r :: r in Running(b, course.value) ==> !Resolvable(r)
      ensures course.Some? && hasFactory && old(Guarded()) ==>
        (Guarded() <==> SparesRunning(old(mine), b, course.value))
      ensures course.Some? ==> (old(NoneRunning(refs)) <==> !RunningBefore(old(Seen()), b))
      ensures hasFactory && old(Guarded()) && old(NoneRunning(refs)) ==> Guarded()
      ensures hasFactory && old(Guarded() && NoneRunning(refs) && outside.live <= mine) ==> LiveGuarded()
      ensures attempt == CutShort(Finishing) ==> campaign.Some?
      ensures old(outside.live <= mine) ==> outside.live <= mine
      ensures old(Mapped()) ==> Mapped()
    {
      ghost var before := Seen();
      attempt, b, course, d := OpenBatch(refs, campaign, identity);
      if course.Some? {
        OpeningGuards(rawIds, before, Seen(), b, attempt, course.value);
        RunningBeforeMeans(rawIds, before, b);
        QuarantineBars(before, Seen(), b, attempt, course.value);
      }
    }

    /** Opens a batch of profiles, all or none. The effect is `Ran` on every exit. Running
        browsers keep their leases exactly when the release pass spares the profiles that
        were running before, as it does when there are none. */
    method OpenMany(refs: seq<string>, campaign: Option<string>)
      returns (attempt: Attempt, ghost b: Batch, ghost course: Option<Course>, ghost d: Diary)
      requires DistinctIds()
      modifies this`leases, this`rawToRef, this`confirmedClosed, this`metadata, this`mine, outside
      ensures outside.log == old(outside.log) + Entries(d)
      ensures course.None? ==> Seen() == old(Seen()) && Denied(old(Known()), refs, d, attempt)
      ensures course.Some? ==> refs != [] && Distinct(refs) && Admitted(old(Known()), refs, d.found)
      ensures course.Some? ==> b == Batch(refs, b.raws, campaign, hasFactory) && Proper(b) && Resolved(rawIds, b)
      ensures course.Some? ==> Ends(b, false, closeAttempts, d.events, d.later, attempt, course.value)
      ensures course.Some? ==> Ran(old(Seen()), Seen(), b, attempt, course.value)
      ensures course.Some? && attempt.Failed? ==> forall r :: r in Running(b, course.value) ==> !Resolvable(r)
      ensures course.Some? && hasFactory && old(Guarded()) ==>
        (Guarded() <==> SparesRunning(old(mine), b, course.value))
      ensures course.Some? ==> (old(NoneRunning(refs)) <==> !RunningBefore(old(Seen()), b))
      ensures hasFactory && old(Guarded()) && old(NoneRunning(refs)) ==> Guarded()
      ensures hasFactory && old(Guarded() && NoneRunning(refs) && outside.live <= mine) ==> LiveGuarded()
      ensures old(outside.live <= mine) ==> outside.live <= mine
      ensures old(Mapped()) ==> Mapped()
    {
      attempt, b, course, d := OpenGuarded(refs, campaign, false);
    }

    /** Opens a batch for identity checks under a campaign lease that is already held and is
        neither acquired nor released here. */
    method OpenIdentityBatch(refs: seq<string>, campaign: string, current: bool)
      returns (attempt: Attempt, ghost b: Batch, ghost course: Option<Course>, ghost d: Diary)
      requires DistinctIds()
      modifies this`leases, this`rawToRef, this`confirmedClosed, this`metadata, this`mine, outside
      ensures outside.log == old(outside.log) + Entries(d)
      ensures !current || (hasFactory && CampaignKey(campaign) !in old(leases)) ==>
        course.None? && Seen() == old(Seen()) && attempt == Failed(IdentityStale) && Entries(d) == []
      ensures course.None? && current && (hasFactory ==> CampaignKey(campaign) in old(leases)) ==>
        Seen() == old(Seen()) && Denied(old(Known()), refs, d, attempt)
      ensures course.Some? ==> refs != [] && Distinct(refs) && Admitted(old(Known()), refs, d.found)
      ensures course.Some? ==> b == Batch(refs, b.raws, None, hasFactory) && Proper(b) && Resolved(rawIds, b)
      ensures course.Some? ==> Ends(b, true, closeAttempts, d.events, d.later, attempt, course.value)
      ensures course.Some? ==> Ran(old(Seen()), Seen(), b, attempt, course.value) && attempt != CutShort(Finishing)
      ensures course.Some? && attempt.Failed? ==> forall r :: r in Running(b, course.value) ==> !Resolvable(r)
      ensures CampaignKey(campaign) in leases <==> CampaignKey(campaign) in old(leases)
      ensures course.Some? && hasFactory && old(Guarded()) ==>
        (Guarded() <==> SparesRunning(old(mine), b, course.value))
      ensures course.Some? ==> (old(NoneRunning(refs)) <==> !RunningBefore(old(Seen()), b))
      ensures hasFactory && old(Guarded()) && old(NoneRunning(refs)) ==> Guarded()
      ensures hasFactory && old(Guarded() && NoneRunning(refs) && outside.live <= mine) ==> LiveGuarded()
      ensures old(outside.live <= mine) ==> outside.live <= mine
      ensures old(Mapped()) ==> Mapped()
    {
      ghost var before := Seen();
      if !current || (hasFactory && CampaignKey(campaign) !in leases) {
        return Failed(IdentityStale), Batch(refs, [], None, hasFactory), None, Diary([], [], []);
      }
      attempt, b, course, d := OpenGuarded(refs, None, true);
      if course.Some? {
        OtherKeysKept(before, Seen(), b, attempt, course.value, CampaignKey(campaign));
      }
    }

    /** Closes bound browsers; a lease goes only with a browser confirmed closed, and the
        other profiles are quarantined, unless closing is cancelled or the store raises. */
    method CloseBindings(raws: seq<string>)
      returns (closed: map<string, bool>, cut: Option<Stage>, ghost ever: map<string, bool>, ghost marked: nat,
        ghost events: seq<Event>)
      requires DistinctIds() && Mapped()
      modifies this`leases, this`rawToRef, this`confirmedClosed, this`metadata, this`mine, outside
      ensures outside.log == old(outside.log) + events && CutAt(events, cut.Some?)
      ensures ClosedByCalls(closed, ever, events, closeAttempts)
      ensures cut in {None, Some(Closing), Some(Quarantining)} && marked <= |raws|
      ensures forall raw :: raw in closed ==> raw in raws
      ensures cut != Some(Closing) ==> forall raw :: raw in raws ==> raw in closed
      ensures Remembers(closed, ever) && (Distinct(raws) ==> ever == closed)
      ensures ClosingDid(old(mine), mine, old(rawToRef), rawToRef, old(leases), leases, ever)
      ensures (cut == Some(Closing) ==> marked == 0) && (cut == None ==> marked == |raws|)
      ensures Quarantined(old(metadata), metadata,
        Unconfirmed(RefsOf(rawToRef, raws)[..marked], raws[..marked], closed))
      ensures forall i :: 0 <= i < marked && raws[i] in rawToRef ==> !Resolvable(rawToRef[raws[i]])
      ensures Mapped() && (old(Guarded()) ==> Guarded())
      ensures old(outside.live <= mine) ==> outside.live <= mine
      ensures old(Guarded() && outside.live <= mine) ==> LiveGuarded()
    {
      var cancelled;
      closed, cancelled, ever, events := CloseMany(raws);
      ClosingGuards(rawIds, old(mine), mine, old(rawToRef), rawToRef, old(leases), leases, ever);
      marked := 0;
      if cancelled {
        return closed, Some(Closing), ever, marked, events;
      }
      var refs := RefsOf(rawToRef, raws);
      var broken;
      ghost var more;
      broken, marked, more := QuarantineUnclosed(refs, raws, closed);
      CutLater(events, more, broken);
      ClosedAside(closed, ever, events, more, closeAttempts);
      events := events + more;
      MarkedAfterClosing(old(metadata), metadata, rawToRef, raws, closed, marked);
      return closed, if broken then Some(Quarantining) else None, ever, marked, events;
    }

    /** None of these profiles has a browser of this gateway that may be running. */
    ghost predicate NoneRunning(refs: seq<string>)
      reads this
    {
      forall r :: r in refs && r in rawIds ==> rawIds[r] !in mine
    }
  }
}
