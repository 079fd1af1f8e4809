/** comment_campaign/profile_gateway.py: the calls an opening makes to the outside, their
    replies, and how these decide the way the opening ends. */
module OpeningCalls {
  import opened Sorting
  import opened OpeningEffects

  /** What the gateway asks of the outside. Discovering and inspecting carry their answers;
      checking is what follows each connection (heartbeat, campaign, leases), confirming what
      follows the tiling. */
  datatype Call =
    | Discovering(listed: Option<set<string>>)
    | Taking(key: Key)
    | Starting(raw: string)
    | Connecting(raw: string)
    | Checking(raw: string)
    | Tiling
    | Confirming
    | Stopping(raw: string)
    | Inspecting(raw: string, active: bool)
    | Returning(key: Key)
    | Marking(ref: string)

  datatype Event = Event(call: Call, reply: Reply)

  /** The calls of one opening: what discovery listed, the calls of the opening itself, and
      those of cleaning up after it. */
  datatype Diary = Diary(found: seq<Option<set<string>>>, events: seq<Event>, later: seq<Event>)

  function Discoveries(found: seq<Option<set<string>>>): (events: seq<Event>)
    ensures |events| == |found| && forall i :: 0 <= i < |found| ==> events[i] == Event(Discovering(found[i]), Fine)
  {
    seq(|found|, i requires 0 <= i < |found| => Event(Discovering(found[i]), Fine))
  }

  function Entries(d: Diary): seq<Event> {
    Discoveries(d.found) + d.events + d.later
  }

  lemma EntriesAdd(log: seq<Event>, d: Diary)
    ensures log + Entries(d) == log + Discoveries(d.found) + d.events + d.later
  {
  }

  /* Which profiles resolve. */

  /** What resolving reads: the metadata, the raw ids, and whether there is discovery. */
  datatype Store = Store(metadata: map<string, Metadata>, rawIds: map<string, string>, discovery: bool)

  predicate Usable(store: Store, ref: string) {
    && ref in store.metadata && store.metadata[ref].enabled && store.metadata[ref].healthy
    && ref in store.rawIds && store.rawIds[ref] != ""
  }

  /** The profile is usable, and discovery, if there is any, lists its raw id. */
  predicate Resolves(store: Store, ref: string, found: seq<Option<set<string>>>) {
    && Usable(store, ref)
    && if store.discovery then |found| == 1 && found[0].Some? && store.rawIds[ref] in found[0].value else found == []
  }

  /** The profile does not resolve: it is unusable, discovery fails, or does not list it. */
  predicate Refuses(store: Store, ref: string, found: seq<Option<set<string>>>, code: Code) {
    if !Usable(store, ref) then found == [] && code == ProfileStartFailed
    else
      && store.discovery && |found| == 1
      && if found[0].None? then code == AdsPowerUnavailable
         else store.rawIds[ref] !in found[0].value && code == ProfileStartFailed
  }

  /** What discovery listed for the `i`-th profile. */
  function ListedFor(store: Store, found: seq<Option<set<string>>>, i: nat): seq<Option<set<string>>> {
    if store.discovery && i < |found| then [found[i]] else []
  }

  /** Every profile resolves. */
  ghost predicate Admitted(store: Store, refs: seq<string>, found: seq<Option<set<string>>>) {
    && |found| == (if store.discovery then |refs| else 0)
    && forall i :: 0 <= i < |refs| ==> Resolves(store, refs[i], ListedFor(store, found, i))
  }

  /** The first profile that does not resolve, and the error this is. */
  ghost predicate RefusedAt(store: Store, refs: seq<string>, found: seq<Option<set<string>>>, i: int, code: Code) {
    && 0 <= i < |refs| && |found| <= i + 1 && Refuses(store, refs[i], ListedFor(store, found, i), code)
    && forall j :: 0 <= j < i ==> Resolves(store, refs[j], ListedFor(store, found, j))
  }

  /** Nothing is opened: the refs are empty or repeat, or the first that does not resolve
      decides the error. */
  ghost predicate Denied(store: Store, refs: seq<string>, d: Diary, attempt: Attempt) {
    && attempt.Failed? && d.events == [] && d.later == []
    && if refs == [] || !Distinct(refs) then d.found == [] && attempt.code == ProfileStartFailed
       else exists i :: RefusedAt(store, refs, d.found, i, attempt.code)
  }

  lemma ResolvesNext(
    store: Store, refs: seq<string>, i: nat, found: seq<Option<set<string>>>, more: seq<Option<set<string>>>)
    requires i < |refs| && Admitted(store, refs[..i], found) && Resolves(store, refs[i], more)
    ensures Admitted(store, refs[..i + 1], found + more)
  {
    KeptListings(store, refs, i, found, more);
  }

  lemma RefusedNext(
    store: Store, refs: seq<string>, i: nat, found: seq<Option<set<string>>>, more: seq<Option<set<string>>>,
    code: Code)
    requires i < |refs| && Admitted(store, refs[..i], found) && Refuses(store, refs[i], more, code)
    ensures RefusedAt(store, refs, found + more, i, code) && !Admitted(store, refs, found + more)
  {
    KeptListings(store, refs, i, found, more);
  }

  lemma KeptListings(
    store: Store, refs: seq<string>, i: nat, found: seq<Option<set<string>>>, more: seq<Option<set<string>>>)
    requires i < |refs| && Admitted(store, refs[..i], found) && |more| <= (if store.discovery then 1 else 0)
    ensures ListedFor(store, found + more, i) == more
    ensures forall j :: 0 <= j < i ==> Resolves(store, refs[j], ListedFor(store, found + more, j))
  {
    forall j | 0 <= j < i
      ensures Resolves(store, refs[j], ListedFor(store, found + more, j))
    {
      assert refs[..i][j] == refs[j];
    }
  }

  /* Which calls an opening makes. */

  /** Without a lease factory no lease is asked for. */
  function TakingOf(hasFactory: bool, key: Key): seq<Call> {
    if hasFactory then [Taking(key)] else []
  }

  function ProfileTakings(hasFactory: bool, refs: seq<string>): seq<Call> {
    if refs == [] then []
    else
      var n := |refs| - 1;
      ProfileTakings(hasFactory, refs[..n]) + TakingOf(hasFactory, ProfileKey(refs[n]))
  }

  /** The leases come first: the campaign's, then the profiles' in batch order. */
  function Takings(b: Batch): seq<Call> {
    (if b.campaign.Some? then TakingOf(b.hasFactory, CampaignKey(b.campaign.value)) else [])
    + ProfileTakings(b.hasFactory, b.refs)
  }

  /** Each browser is started, connected and checked before the next. */
  function Browsing(raws: seq<string>): seq<Call> {
    if raws == [] then []
    else
      var n := |raws| - 1;
      Browsing(raws[..n]) + [Starting(raws[n]), Connecting(raws[n]), Checking(raws[n])]
  }

  function Calls(b: Batch): seq<Call> {
    Takings(b) + Browsing(b.raws) + [Tiling, Confirming]
  }

  predicate AllFine(events: seq<Event>) {
    forall i :: 0 <= i < |events| ==> events[i].reply.Fine?
  }

  /** The calls are made in this order, up to the first that is not answered well. */
  ghost predicate Follows(calls: seq<Call>, events: seq<Event>) {
    && |events| <= |calls|
    && (forall i :: 0 <= i < |events| ==> events[i].call == calls[i])
    && (forall i :: 0 <= i < |events| - 1 ==> events[i].reply.Fine?)
    && (|events| < |calls| ==> events != [] && !events[|events| - 1].reply.Fine?)
  }

  function LastReply(events: seq<Event>): Reply {
    if events == [] then Fine else events[|events| - 1].reply
  }

  /** The browsers whose start was asked for, in order. */
  function StartsOf(events: seq<Event>): seq<string> {
    if events == [] then []
    else
      var last := events[|events| - 1];
      StartsOf(events[..|events| - 1]) + if last.call.Starting? then [last.call.raw] else []
  }

  lemma {:induction false} StartsAdd(events: seq<Event>, more: seq<Event>)
    ensures StartsOf(events + more) == StartsOf(events) + StartsOf(more)
  {
    if more == [] {
      assert events + more == events;
    } else {
      var n := |more| - 1;
      assert (events + more)[..|events| + n] == events + more[..n];
      StartsAdd(events, more[..n]);
    }
  }

  lemma {:induction false} NoStarts(calls: seq<Call>, events: seq<Event>)
    requires |events| <= |calls| && forall i :: 0 <= i < |events| ==> events[i].call == calls[i] && !calls[i].Starting?
    ensures StartsOf(events) == []
  {
    if events != [] {
      NoStarts(calls, events[..|events| - 1]);
    }
  }

  /* How a failing call is reported. */

  /** The code of the error that this reply leads to. Opening for identity checks tells apart
      contention for leases, starting and connecting; what it does not tell apart it passes on
      as it is. */
  ghost predicate Carries(identity: bool, e: Event, code: Code) {
    match e.reply
    case Fine => false
    case Cancelled => false
    case Refused(refusal) =>
      if e.call.Taking? && identity then code == IdentityStale
      else if e.call.Taking? then code == ProfileStartFailed
      else code == refusal
    case Broken =>
      if e.call.Taking? then code == RedisUnavailable
      else if !identity || e.call.Starting? then code == ProfileStartFailed
      else if e.call.Connecting? then code == CdpConnectFailed
      else code == Unexpected
  }

  /** What is raised for the last reply: nothing if all were fine, a cancellation as such, and
      otherwise a campaign error or some other exception. */
  ghost predicate Raised(identity: bool, events: seq<Event>, raised: Reply) {
    && (raised.Fine? <==> AllFine(events))
    && (raised.Cancelled? <==> LastReply(events).Cancelled?)
    && (raised.Refused? || raised.Broken? ==>
         events != [] && Carries(identity, events[|events| - 1], CodeRaised(identity, raised)))
  }

  function CodeRaised(identity: bool, raised: Reply): Code {
    if raised.Refused? then raised.code else if identity then Unexpected else ProfileStartFailed
  }

  /** The calls were made in order up to the first that failed, and this is what was raised. */
  ghost predicate Goes(identity: bool, calls: seq<Call>, events: seq<Event>, raised: Reply) {
    if calls == [] then
      events == [] && raised.Fine?
    else
      && events != [] && events[0].call == calls[0]
      && if events[0].reply.Fine? then Goes(identity, calls[1..], events[1..], raised)
         else |events| == 1 && Fails(identity, events[0], raised)
  }

  ghost predicate Noted(events: seq<Event>) {
    true
  }

  /** The same, to be looked into only where a proof notes the events (`LookInto`). */
  ghost predicate Went(identity: bool, calls: seq<Call>, events: seq<Event>, raised: Reply) {
    forall told {:trigger Noted(told)} :: told == events && Noted(told) ==> Goes(identity, calls, told, raised)
  }

  lemma LookInto(identity: bool, calls: seq<Call>, events: seq<Event>, raised: Reply)
    ensures Went(identity, calls, events, raised) <==> Goes(identity, calls, events, raised)
  {
    assert Noted(events);
  }

  /** The failing reply is raised: a cancellation as such, anything else with its code. */
  ghost predicate Fails(identity: bool, e: Event, raised: Reply) {
    && !raised.Fine? && (raised.Cancelled? <==> e.reply.Cancelled?)
    && (!raised.Cancelled? ==> Carries(identity, e, CodeRaised(identity, raised)))
  }

  lemma WentMeans(identity: bool, calls: seq<Call>, events: seq<Event>, raised: Reply)
    requires Went(identity, calls, events, raised)
    ensures Follows(calls, events) && Raised(identity, events, raised)
  {
    LookInto(identity, calls, events, raised);
    GoesMeans(identity, calls, events, raised);
  }

  lemma {:induction false} GoesMeans(identity: bool, calls: seq<Call>, events: seq<Event>, raised: Reply)
    requires Goes(identity, calls, events, raised)
    ensures Follows(calls, events) && Raised(identity, events, raised)
  {
    if calls != [] && events[0].reply.Fine? {
      GoesMeans(identity, calls[1..], events[1..], raised);
      assert calls == [calls[0]] + calls[1..] && events == [events[0]] + events[1..];
      assert forall i :: 0 <= i < |events| - 1 ==> events[i + 1] == events[1..][i];
      assert AllFine(events) <==> AllFine(events[1..]);
    }
  }

  /** How opening raises a reply: for identity checks a failing start or connection becomes a
      campaign error at once. */
  function Translated(identity: bool, call: Call, reply: Reply): Reply {
    if identity && reply.Broken? && call.Starting? then Refused(ProfileStartFailed)
    else if identity && reply.Broken? && call.Connecting? then Refused(CdpConnectFailed)
    else reply
  }

  lemma OneCall(identity: bool, call: Call, reply: Reply)
    requires !call.Taking?
    ensures Went(identity, [call], [Event(call, reply)], Translated(identity, call, reply))
  {
    LookInto(identity, [call], [Event(call, reply)], Translated(identity, call, reply));
  }

  lemma GoesOn(
    identity: bool, calls: seq<Call>, events: seq<Event>, more: seq<Call>, events': seq<Event>, raised: Reply)
    requires Went(identity, calls, events, Fine) && Went(identity, more, events', raised)
    ensures Went(identity, calls + more, events + events', raised)
  {
    LookInto(identity, calls, events, Fine);
    LookInto(identity, more, events', raised);
    GoesFurther(identity, calls, events, more, events', raised);
    LookInto(identity, calls + more, events + events', raised);
  }

  lemma {:induction false} GoesFurther(
    identity: bool, calls: seq<Call>, events: seq<Event>, more: seq<Call>, events': seq<Event>, raised: Reply)
    requires Goes(identity, calls, events, Fine) && Goes(identity, more, events', raised)
    ensures Goes(identity, calls + more, events + events', raised)
  {
    if calls == [] {
      assert calls + more == more && events + events' == events';
    } else {
      assert (calls + more)[1..] == calls[1..] + more && (events + events')[1..] == events[1..] + events';
      GoesFurther(identity, calls[1..], events[1..], more, events', raised);
    }
  }

  lemma EndsHere(identity: bool, calls: seq<Call>, events: seq<Event>, more: seq<Call>, raised: Reply)
    requires Went(identity, calls, events, raised) && !raised.Fine?
    ensures Went(identity, calls + more, events, raised)
  {
    LookInto(identity, calls, events, raised);
    GoesNoFurther(identity, calls, events, more, raised);
    LookInto(identity, calls + more, events, raised);
  }

  lemma {:induction false} GoesNoFurther(
    identity: bool, calls: seq<Call>, events: seq<Event>, more: seq<Call>, raised: Reply)
    requires Goes(identity, calls, events, raised) && !raised.Fine?
    ensures Goes(identity, calls + more, events, raised)
  {
    assert (calls + more)[1..] == calls[1..] + more;
    if events[0].reply.Fine? {
      GoesNoFurther(identity, calls[1..], events[1..], more, raised);
    }
  }

  /* What cuts the handling of a failure short. */

  /** A cancellation, or a store that raises while a profile is marked. */
  predicate CutsShort(e: Event) {
    if e.call.Marking? then !e.reply.Fine? else e.reply.Cancelled?
  }

  /** Only the last call may cut short, and it does if and only if `cut`. */
  predicate CutAt(events: seq<Event>, cut: bool) {
    && (forall i :: 0 <= i < |events| - 1 ==> !CutsShort(events[i]))
    && (cut <==> events != [] && CutsShort(events[|events| - 1]))
  }

  lemma CutLater(events: seq<Event>, more: seq<Event>, cut: bool)
    requires CutAt(events, false) && CutAt(more, cut)
    ensures CutAt(events + more, cut)
  {
    assert forall i :: 0 <= i < |events| ==> !CutsShort(events[i]);
    assert forall i :: 0 <= i < |more| ==> (events + more)[|events| + i] == more[i];
  }

  /** The browser was asked about and found inactive. */
  predicate SeenInactive(events: seq<Event>, raw: string) {
    Event(Inspecting(raw, false), Fine) in events
  }

  function Stops(events: seq<Event>, raw: string): nat {
    if events == [] then 0
    else Stops(events[..|events| - 1], raw) + if events[|events| - 1].call == Stopping(raw) then 1 else 0
  }

  lemma {:induction false} StopsAdd(events: seq<Event>, more: seq<Event>, raw: string)
    ensures Stops(events + more, raw) == Stops(events, raw) + Stops(more, raw)
  {
    if more == [] {
      assert events + more == events;
    } else {
      var n := |more| - 1;
      assert (events + more)[..|events| + n] == events + more[..n];
      StopsAdd(events, more[..n], raw);
    }
  }

  /** Calls about one browser that is being closed. */
  predicate About(events: seq<Event>, raw: string) {
    forall i :: 0 <= i < |events| ==>
      (events[i].call.Stopping? || events[i].call.Inspecting?) && events[i].call.raw == raw
  }

  /** None of these calls is about a browser. */
  predicate Aside(events: seq<Event>) {
    forall i :: 0 <= i < |events| ==> events[i].call.Returning? || events[i].call.Marking?
  }

  lemma {:induction false} OthersStop(events: seq<Event>, raw: string)
    requires forall i :: 0 <= i < |events| ==> events[i].call != Stopping(raw)
    ensures Stops(events, raw) == 0
  {
    if events != [] {
      OthersStop(events[..|events| - 1], raw);
    }
  }

  /** One attempt at closing a browser, or several that have not confirmed it so far. */
  ghost predicate Attempted(raw: string, events: seq<Event>, n: nat, confirmed: bool, cancelled: bool) {
    && About(events, raw) && CutAt(events, cancelled) && Stops(events, raw) == n
    && (confirmed <==> SeenInactive(events, raw)) && !(confirmed && cancelled)
  }

  lemma StopOnly(raw: string, reply: Reply)
    ensures Attempted(raw, [Event(Stopping(raw), reply)], 1, false, reply.Cancelled?)
  {
    assert [Event(Stopping(raw), reply)][..0] == [];
    assert Stops([Event(Stopping(raw), reply)], raw) == 1;
  }

  lemma StopAndInspect(raw: string, active: bool, reply: Reply)
    ensures Attempted(
      raw, [Event(Stopping(raw), Fine)] + [Event(Inspecting(raw, active), reply)], 1, reply.Fine? && !active,
      reply.Cancelled?)
  {
    var first, second := [Event(Stopping(raw), Fine)], [Event(Inspecting(raw, active), reply)];
    StopOnly(raw, Fine);
    assert second[..0] == [];
    assert Stops(second, raw) == 0;
    CutLater(first, second, reply.Cancelled?);
    StopsAdd(first, second, raw);
    assert (first + second)[1] == second[0];
  }

  lemma AttemptedAgain(
    raw: string, events: seq<Event>, n: nat, more: seq<Event>, m: nat, confirmed: bool, cancelled: bool)
    requires Attempted(raw, events, n, false, false) && Attempted(raw, more, m, confirmed, cancelled)
    ensures Attempted(raw, events + more, n + m, confirmed, cancelled)
  {
    CutLater(events, more, cancelled);
    StopsAdd(events, more, raw);
    assert SeenInactive(events + more, raw) <==> SeenInactive(events, raw) || SeenInactive(more, raw);
  }

  function Tries(closeAttempts: int): nat {
    if closeAttempts > 0 then closeAttempts else 0
  }

  /** The answers of closing rest on the calls: a browser counts as closed exactly when it was
      found inactive, and is given up on only after every attempt at it. */
  ghost predicate ClosedByCalls(
    closed: map<string, bool>, ever: map<string, bool>, events: seq<Event>, closeAttempts: int)
  {
    && (forall raw :: Confirmed(ever, raw) <==> SeenInactive(events, raw))
    && forall raw :: raw in closed && !closed[raw] ==> Stops(events, raw) >= Tries(closeAttempts)
  }

  /** Closing one browser asks about it alone, and releases its lease after that. */
  predicate ClosingOf(events: seq<Event>, raw: string) {
    forall i :: 0 <= i < |events| ==>
      events[i].call.Returning?
      || ((events[i].call.Stopping? || events[i].call.Inspecting?) && events[i].call.raw == raw)
  }

  lemma ClosedByMore(
    closed: map<string, bool>, ever: map<string, bool>, events: seq<Event>, more: seq<Event>, closeAttempts: int,
    raw: string, confirmed: bool, cancelled: bool)
    requires ClosedByCalls(closed, ever, events, closeAttempts) && ClosingOf(more, raw)
    requires confirmed <==> SeenInactive(more, raw)
    requires !confirmed && !cancelled ==> Stops(more, raw) >= Tries(closeAttempts)
    ensures !confirmed ==> ClosedByCalls(closed, ever, events + more, closeAttempts)
    ensures confirmed || !cancelled ==>
      ClosedByCalls(
        closed[raw := confirmed], ever[raw := confirmed || Confirmed(ever, raw)], events + more, closeAttempts)
  {
    forall r
      ensures SeenInactive(events + more, r) <==> SeenInactive(events, r) || (r == raw && confirmed)
    {
      assert SeenInactive(more, r) ==> r == raw;
    }
    forall r
      ensures Stops(events + more, r) == Stops(events, r) + Stops(more, r)
    {
      StopsAdd(events, more, r);
    }
  }

  lemma ClosedAside(
    closed: map<string, bool>, ever: map<string, bool>, events: seq<Event>, more: seq<Event>, closeAttempts: int)
    requires ClosedByCalls(closed, ever, events, closeAttempts) && Aside(more)
    ensures ClosedByCalls(closed, ever, events + more, closeAttempts)
  {
    forall r
      ensures SeenInactive(events + more, r) <==> SeenInactive(events, r)
    {
      assert !SeenInactive(more, r);
    }
    forall r
      ensures Stops(events + more, r) == Stops(events, r) + Stops(more, r)
    {
      StopsAdd(events, more, r);
    }
  }

  /** Opening for identity checks takes a profile lease that is not granted for contention. */
  function Contended(identity: bool, raised: Reply): Reply {
    if identity && raised == Refused(ProfileStartFailed) then Refused(IdentityStale) else raised
  }

  lemma {:induction false} TakenNext(
    identity: bool, hasFactory: bool, refs: seq<string>, i: nat, events: seq<Event>, more: seq<Event>, raised: Reply)
    requires i < |refs| && Went(identity, ProfileTakings(hasFactory, refs[..i]), events, Fine)
    requires Went(false, TakingOf(hasFactory, ProfileKey(refs[i])), more, raised) && !raised.Broken?
    ensures raised.Fine? ==> Went(identity, ProfileTakings(hasFactory, refs[..i + 1]), events + more, Fine)
    ensures !raised.Fine? ==>
      Went(identity, ProfileTakings(hasFactory, refs), events + more, Contended(identity, raised))
  {
    var taking := TakingOf(hasFactory, ProfileKey(refs[i]));
    LookInto(false, taking, more, raised);
    LookInto(identity, taking, more, Contended(identity, raised));
    assert refs[..i + 1][..i] == refs[..i];
    GoesOn(identity, ProfileTakings(hasFactory, refs[..i]), events, taking, more, Contended(identity, raised));
    if !raised.Fine? {
      StopsTaking(identity, hasFactory, refs, i + 1, events + more, Contended(identity, raised));
    }
  }

  lemma {:induction false} StopsTaking(
    identity: bool, hasFactory: bool, refs: seq<string>, i: nat, events: seq<Event>, raised: Reply)
    requires i <= |refs| && Went(identity, ProfileTakings(hasFactory, refs[..i]), events, raised) && !raised.Fine?
    ensures Went(identity, ProfileTakings(hasFactory, refs), events, raised)
  {
    if i == |refs| {
      assert refs[..i] == refs;
    } else {
      var n := |refs| - 1;
      assert refs[..n][..i] == refs[..i];
      StopsTaking(identity, hasFactory, refs[..n], i, events, raised);
      EndsHere(
        identity, ProfileTakings(hasFactory, refs[..n]), events, TakingOf(hasFactory, ProfileKey(refs[n])), raised);
    }
  }

  lemma {:induction false} TakingsOnly(hasFactory: bool, refs: seq<string>)
    ensures forall i :: 0 <= i < |ProfileTakings(hasFactory, refs)| ==> ProfileTakings(hasFactory, refs)[i].Taking?
  {
    if refs != [] {
      TakingsOnly(hasFactory, refs[..|refs| - 1]);
    }
  }

  lemma TakingStartsNothing(identity: bool, b: Batch, events: seq<Event>, raised: Reply)
    requires Went(identity, Takings(b), events, raised)
    ensures StartsOf(events) == []
  {
    WentMeans(identity, Takings(b), events, raised);
    TakingsOnly(b.hasFactory, b.refs);
    NoStarts(Takings(b), events);
  }

  /** The leases were taken and opening went on from there. */
  lemma OpenedOn(identity: bool, b: Batch, events: seq<Event>, more: seq<Event>, raised: Reply)
    requires Went(identity, Takings(b), events, Fine)
    requires Went(identity, Browsing(b.raws) + [Tiling, Confirming], more, raised)
    ensures Went(identity, Calls(b), events + more, raised) && StartsOf(events + more) == StartsOf(more)
  {
    TakingStartsNothing(identity, b, events, Fine);
    GoesOn(identity, Takings(b), events, Browsing(b.raws) + [Tiling, Confirming], more, raised);
    assert Calls(b) == Takings(b) + (Browsing(b.raws) + [Tiling, Confirming]);
    StartsAdd(events, more);
  }

  /** Not every lease was taken, and opening stopped there. */
  lemma OpenedUpTo(identity: bool, b: Batch, events: seq<Event>, raised: Reply)
    requires Went(identity, Takings(b), events, raised) && !raised.Fine?
    ensures Went(identity, Calls(b), events, raised) && StartsOf(events) == []
  {
    TakingStartsNothing(identity, b, events, raised);
    EndsHere(identity, Takings(b), events, Browsing(b.raws) + [Tiling, Confirming], raised);
    assert Calls(b) == Takings(b) + (Browsing(b.raws) + [Tiling, Confirming]);
  }

  lemma OneBrowsed(raw: string)
    ensures Browsing([raw]) == [Starting(raw), Connecting(raw), Checking(raw)]
  {
    assert [raw][..0] == [];
  }

  lemma BrowsingNext(
    identity: bool, raws: seq<string>, i: nat, events: seq<Event>, more: seq<Event>, raised: Reply)
    requires i < |raws| && Went(identity, Browsing(raws[..i]), events, Fine)
    requires Went(identity, Browsing([raws[i]]), more, raised)
    ensures Went(identity, Browsing(raws[..i + 1]), events + more, raised)
    ensures !raised.Fine? ==> Went(identity, Browsing(raws), events + more, raised)
  {
    OneBrowsed(raws[i]);
    assert raws[..i + 1][..i] == raws[..i];
    GoesOn(identity, Browsing(raws[..i]), events, Browsing([raws[i]]), more, raised);
    if !raised.Fine? {
      StopsInside(identity, raws, i + 1, events + more, raised);
    }
  }

  lemma {:induction false} StopsInside(identity: bool, raws: seq<string>, i: nat, events: seq<Event>, raised: Reply)
    requires i <= |raws| && Went(identity, Browsing(raws[..i]), events, raised) && !raised.Fine?
    ensures Went(identity, Browsing(raws), events, raised)
  {
    if i == |raws| {
      assert raws[..i] == raws;
    } else {
      var n := |raws| - 1;
      assert raws[..n][..i] == raws[..i];
      StopsInside(identity, raws[..n], i, events, raised);
      EndsHere(
        identity, Browsing(raws[..n]), events, [Starting(raws[n]), Connecting(raws[n]), Checking(raws[n])], raised);
    }
  }

  /** How an opening ends, told by its calls. It succeeds exactly when every call was answered
      well, and is interrupted exactly when one was cancelled; otherwise the first failing reply
      is reported unless a browser stayed unconfirmed, and the handling is cut short exactly
      when one of its own calls does that. */
  ghost predicate Ends(
    b: Batch, identity: bool, closeAttempts: int, events: seq<Event>, later: seq<Event>, attempt: Attempt, c: Course)
    requires Proper(b)
  {
    && Follows(Calls(b), events)
    && c.started == StartsOf(events)
    && (attempt.Opened? <==> AllFine(events))
    && (attempt.Interrupted? <==> LastReply(events).Cancelled?)
    && (attempt.Opened? || attempt.Interrupted? ==> later == [])
    && CutAt(later, attempt.CutShort?)
    && (attempt.Failed? && Running(b, c) != {} ==> attempt.code == ProfileCloseFailed)
    && (attempt.Failed? && Running(b, c) == {} ==>
         events != [] && Carries(identity, events[|events| - 1], attempt.code))
    && ClosedByCalls(c.closed, c.closed, later, closeAttempts)
  }

  lemma OpenedEnds(
    b: Batch, identity: bool, closeAttempts: int, events: seq<Event>, later: seq<Event>, raised: Reply,
    attempt: Attempt, c: Course)
    requires Proper(b) && Went(identity, Calls(b), events, raised) && later == []
    requires c == Course(StartsOf(events), map[], 0, 0)
    requires (raised.Fine? && attempt.Opened?) || (raised.Cancelled? && attempt.Interrupted?)
    ensures Ends(b, identity, closeAttempts, events, later, attempt, c)
  {
    WentMeans(identity, Calls(b), events, raised);
    FineOrNot(events, raised, identity);
  }

  lemma FineOrNot(events: seq<Event>, raised: Reply, identity: bool)
    requires Raised(identity, events, raised)
    ensures raised.Fine? ==> !LastReply(events).Cancelled?
    ensures raised.Cancelled? ==> !AllFine(events)
  {
    if raised.Cancelled? {
      assert !events[|events| - 1].reply.Fine?;
    }
  }

  lemma FailedEnds(
    b: Batch, identity: bool, closeAttempts: int, events: seq<Event>, later: seq<Event>, raised: Reply,
    attempt: Attempt, c: Course)
    requires Proper(b) && Went(identity, Calls(b), events, raised) && c.started == StartsOf(events)
    requires raised.Refused? || raised.Broken?
    requires (attempt.Failed? || attempt.CutShort?) && CutAt(later, attempt.CutShort?)
    requires attempt.Failed? ==>
      attempt.code == if Running(b, c) != {} then ProfileCloseFailed else CodeRaised(identity, raised)
    requires ClosedByCalls(c.closed, c.closed, later, closeAttempts)
    ensures Ends(b, identity, closeAttempts, events, later, attempt, c)
  {
    WentMeans(identity, Calls(b), events, raised);
  }

  lemma CarriesOne(identity: bool, e: Event, code: Code, code': Code)
    requires Carries(identity, e, code) && Carries(identity, e, code')
    ensures code == code'
  {
  }

  /** What the calls were answered decides how an opening ends: whether it succeeds, is
      interrupted, fails with which code, or is cut short. */
  lemma CallsDecideTheEnding(
    b: Batch, identity: bool, closeAttempts: int, events: seq<Event>, later: seq<Event>,
    attempt: Attempt, c: Course, attempt': Attempt, c': Course)
    requires Proper(b) && Fits(b, c) && Fits(b, c')
    requires Ends(b, identity, closeAttempts, events, later, attempt, c)
    requires Ends(b, identity, closeAttempts, events, later, attempt', c')
    ensures c.started == c'.started && Running(b, c) == Running(b, c')
    ensures attempt == attempt' || (attempt.CutShort? && attempt'.CutShort?)
  {
    assert forall raw :: Confirmed(c.closed, raw) <==> SeenInactive(later, raw);
    assert forall raw :: Confirmed(c'.closed, raw) <==> SeenInactive(later, raw);
    if attempt.Failed? && Running(b, c) == {} {
      CarriesOne(identity, events[|events| - 1], attempt.code, attempt'.code);
    }
  }
}
