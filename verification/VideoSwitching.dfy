/** browser_video_switch.py: scrolling to the next video until it is seen to have changed,
    and repeating that with one page replacement at most, every wheel event accounted for. */
module VideoSwitching {
  import opened Sorting

  datatype FeedState = FeedState(fingerprint: string, scrollTop: real, height: real)

  /** Why a browser call raised: its target is closed, the strategy was paused, or anything else. */
  datatype Fault = Closed | Pause | Other

  const WHEEL_DELTA := 120.0
  const TOLERANCE := 2.0
  const MOST_PULSES := 24

  /* Watching for a stable change. */

  /** One poll before the deadline. */
  datatype Reading = Saw(state: FeedState) | Broke(fault: Fault)

  datatype Observation = Changed(state: FeedState) | Unchanged | Raised(fault: Fault)

  predicate Near(a: real, b: real) {
    -TOLERANCE <= a - b <= TOLERANCE
  }

  /** Two polls in a row show one video, not the one before, at one place. */
  predicate StablePair(before: FeedState, a: Reading, b: Reading) {
    && a.Saw? && b.Saw? && b.state.fingerprint != before.fingerprint
    && a.state.fingerprint == b.state.fingerprint && Near(b.state.scrollTop, a.state.scrollTop)
  }

  predicate Decisive(before: FeedState, readings: seq<Reading>, i: nat)
    requires i < |readings|
  {
    readings[i].Broke? || (i > 0 && StablePair(before, readings[i - 1], readings[i]))
  }

  ghost predicate DecidedBy(before: FeedState, readings: seq<Reading>, i: int, r: Observation) {
    && 0 <= i < |readings| && Decisive(before, readings, i)
    && (forall j :: 0 <= j < i ==> !Decisive(before, readings, j))
    && r == if readings[i].Broke? then Raised(readings[i].fault) else Changed(readings[i].state)
  }

  /** The first stable change or exception decides; without one, nothing changed. */
  method AwaitStableChange(before: FeedState, readings: seq<Reading>) returns (r: Observation)
    ensures r.Unchanged? <==> forall i :: 0 <= i < |readings| ==> !Decisive(before, readings, i)
    ensures !r.Unchanged? ==> exists i :: DecidedBy(before, readings, i, r)
  {
    var candidate: Option<FeedState> := None;
    for i := 0 to |readings|
      invariant forall j :: 0 <= j < i ==> !Decisive(before, readings, j)
      invariant i > 0 ==> readings[i - 1].Saw?
      invariant candidate ==
        if i > 0 && readings[i - 1].state.fingerprint != before.fingerprint then Some(readings[i - 1].state) else None
    {
      if readings[i].Broke? {
        assert DecidedBy(before, readings, i, Raised(readings[i].fault));
        return Raised(readings[i].fault);
      }
      var current := readings[i].state;
      if current.fingerprint == before.fingerprint {
        candidate := None;
      } else {
        if candidate.Some? && current.fingerprint == candidate.value.fingerprint
           && Near(current.scrollTop, candidate.value.scrollTop) {
          assert StablePair(before, readings[i - 1], readings[i]);
          assert DecidedBy(before, readings, i, Changed(current));
          return Changed(current);
        }
        candidate := Some(current);
      }
    }
    return Unchanged;
  }

  /* One switch. */

  datatype Code =
    | Timeout
    | NotObserved
    | StateCaptureFailed
    | ClosedTarget
    | RecoveryFailed
    | IntervalFailed

  /** How one attempt to switch ends, and the wheel events it counted. A pause says nothing of them. */
  datatype Outcome =
    | Switched(from: FeedState, to: FeedState, wheels: nat)
    | Interrupted(cause: Fault, wheels: nat)
    | Failed(code: Code, wheels: nat)
    | Paused

  datatype Reply = Done | Late | Threw(fault: Fault)

  function Ceiling(x: real): int {
    -((-x).Floor)
  }

  /** Four pulses more than it takes to scroll the height, but at least four and at most 24. */
  predicate PulseLimit(height: real, n: int) {
    && 4 <= n <= 24
    && (n < 24 ==> height <= 120.0 * (n - 4) as real)
    && (n > 4 ==> height > 120.0 * (n - 5) as real)
  }

  function MaxPulses(height: real): (n: int)
    ensures PulseLimit(height, n)
  {
    var wanted := Ceiling(height / WHEEL_DELTA) + 4;
    if wanted < 4 then 4 else if wanted > MOST_PULSES then MOST_PULSES else wanted
  }

  /** A wheel call that was answered has scrolled; one whose answer is late or lost may have. */
  datatype WheelCall = Answered | Lost(scrolled: bool)

  function AnsweredIn(calls: seq<WheelCall>): nat {
    if calls == [] then 0
    else AnsweredIn(calls[..|calls| - 1]) + if calls[|calls| - 1].Answered? then 1 else 0
  }

  function LostIn(calls: seq<WheelCall>): nat {
    if calls == [] then 0
    else LostIn(calls[..|calls| - 1]) + if calls[|calls| - 1].Lost? then 1 else 0
  }

  /** The wheel events that reached the page. */
  function ScrolledIn(calls: seq<WheelCall>): nat {
    if calls == [] then 0
    else ScrolledIn(calls[..|calls| - 1]) + if calls[|calls| - 1] != Lost(false) then 1 else 0
  }

  lemma AppendCall(calls: seq<WheelCall>, call: WheelCall)
    ensures AnsweredIn(calls + [call]) == AnsweredIn(calls) + if call.Answered? then 1 else 0
    ensures LostIn(calls + [call]) == LostIn(calls) + if call.Lost? then 1 else 0
  {
    assert (calls + [call])[..|calls|] == calls;
  }

  lemma {:induction false} AppendCalls(calls: seq<WheelCall>, more: seq<WheelCall>)
    ensures AnsweredIn(calls + more) == AnsweredIn(calls) + AnsweredIn(more)
    ensures LostIn(calls + more) == LostIn(calls) + LostIn(more)
  {
    if more == [] {
      assert calls + more == calls;
    } else {
      var n := |more| - 1;
      AppendCalls(calls, more[..n]);
      AppendCall(calls + more[..n], more[n]);
      assert calls + more == calls + more[..n] + [more[n]];
    }
  }

  /** What was counted differs from what scrolled by the calls that scrolled unanswered. */
  lemma {:induction false} ScrolledVersusAnswered(calls: seq<WheelCall>)
    ensures AnsweredIn(calls) <= ScrolledIn(calls) <= AnsweredIn(calls) + LostIn(calls)
    ensures ScrolledIn(calls) == AnsweredIn(calls) <==> Lost(true) !in calls
  {
    if calls != [] {
      var front, last := calls[..|calls| - 1], calls[|calls| - 1];
      assert calls == front + [last];
      ScrolledVersusAnswered(front);
    }
  }

  /** One pulse: how the wheel call was answered, and then what was polled and whether time was
      left. */
  datatype Pulse = Pulse(reply: Reply, readings: seq<Reading>, left: bool)

  /** One attempt: how it began, and then what was captured and the pulses. */
  datatype Sight = Sight(begun: Reply, before: FeedState, pulses: seq<Pulse>)

  /** What the page was asked, and what it answered. */
  datatype Notice =
    | Began(reply: Reply)
    | Captured(state: FeedState)
    | Wheeled(reply: Reply)
    | Polled(readings: seq<Reading>)
    | Timed(left: bool)

  predicate Undecided(before: FeedState, readings: seq<Reading>) {
    forall i :: 0 <= i < |readings| ==> !Decisive(before, readings, i)
  }

  /** The pulse was answered, showed nothing new, and left time for another. */
  predicate Fruitless(before: FeedState, p: Pulse) {
    p.reply.Done? && Undecided(before, p.readings) && p.left
  }

  predicate AllFruitless(before: FeedState, pulses: seq<Pulse>) {
    forall i :: 0 <= i < |pulses| ==> Fruitless(before, pulses[i])
  }

  /** The pulse was answered and its polls decided. */
  ghost predicate Decides(before: FeedState, p: Pulse, r: Observation) {
    p.reply.Done? && exists i :: DecidedBy(before, p.readings, i, r)
  }

  /** What of a pulse the page could notice: no polls without an answer, and a look at the time
      only after polls that decided nothing. */
  function PulseNotices(before: FeedState, p: Pulse): seq<Notice> {
    if !p.reply.Done? then [Wheeled(p.reply)]
    else if !Undecided(before, p.readings) then [Wheeled(p.reply), Polled(p.readings)]
    else [Wheeled(p.reply), Polled(p.readings), Timed(p.left)]
  }

  function PulsesNotices(before: FeedState, pulses: seq<Pulse>): seq<Notice> {
    if pulses == [] then []
    else
      var n := |pulses| - 1;
      PulsesNotices(before, pulses[..n]) + PulseNotices(before, pulses[n])
  }

  function Notices(sight: Sight): seq<Notice> {
    [Began(sight.begun)]
    + if sight.begun.Done? then [Captured(sight.before)] + PulsesNotices(sight.before, sight.pulses) else []
  }

  /** How one pulse ends: without an answer, with an exception at the call or while polling, with
      a new video, or without one, with time left or not. */
  datatype After = Unanswered | Raising(fault: Fault, answered: bool) | Moved(state: FeedState) | Again(left: bool)

  ghost predicate Shows(before: FeedState, p: Pulse, r: After) {
    match r
    case Unanswered => p.reply.Late?
    case Raising(fault, answered) =>
      if answered then Decides(before, p, Raised(fault)) else p.reply == Threw(fault)
    case Moved(state) => Decides(before, p, Changed(state))
    case Again(left) => p.reply.Done? && Undecided(before, p.readings) && p.left == left
  }

  /** The browser page: what it answers is not known in advance. It remembers the wheel calls,
      how the attempts ended, how many rests were answered or not, and how many replacements
      were found or not. */
  class Feed {
    ghost var calls: seq<WheelCall>
    ghost var log: seq<Outcome>
    ghost var seen: seq<Notice>
    ghost var rested: nat
    ghost var unrested: nat
    ghost var replaced: nat
    ghost var missed: nat

    method AnyReply() returns (reply: Reply)
    {
      reply := Done;
      if * {
        reply := Late;
      } else if * {
        var fault: Fault := *;
        reply := Threw(fault);
      }
    }

    /** Capturing for the first time and moving the mouse into place. */
    method Begin() returns (reply: Reply)
      modifies this`seen
      ensures seen == old(seen) + [Began(reply)]
    {
      reply := AnyReply();
      seen := seen + [Began(reply)];
    }

    method Capture() returns (state: FeedState)
      modifies this`seen
      ensures seen == old(seen) + [Captured(state)]
    {
      state := *;
      seen := seen + [Captured(state)];
    }

    method Poll() returns (readings: seq<Reading>)
      modifies this`seen
      ensures seen == old(seen) + [Polled(readings)]
    {
      readings := *;
      seen := seen + [Polled(readings)];
    }

    method TimeLeft() returns (left: bool)
      modifies this`seen
      ensures seen == old(seen) + [Timed(left)]
    {
      left := *;
      seen := seen + [Timed(left)];
    }

    /** The event may reach the page although the answer is late or an exception. */
    method Wheel() returns (reply: Reply, ghost call: WheelCall)
      modifies this`calls, this`seen
      ensures calls == old(calls) + [call] && (call.Answered? <==> reply.Done?)
      ensures seen == old(seen) + [Wheeled(reply)]
    {
      reply := AnyReply();
      var scrolled: bool := *;
      call := if reply.Done? then Answered else Lost(scrolled);
      calls := calls + [call];
      seen := seen + [Wheeled(reply)];
    }

    method Rest() returns (reply: Reply)
      modifies this`rested, this`unrested
      ensures rested == old(rested) + if reply.Done? then 1 else 0
      ensures unrested == old(unrested) + if reply.Done? then 0 else 1
    {
      reply := AnyReply();
      if reply.Done? {
        rested := rested + 1;
      } else {
        unrested := unrested + 1;
      }
    }

    method Replace() returns (found: bool)
      modifies this`replaced, this`missed
      ensures replaced == old(replaced) + if found then 1 else 0
      ensures missed == old(missed) + if found then 0 else 1
    {
      found := *;
      if found {
        replaced := replaced + 1;
      } else {
        missed := missed + 1;
      }
    }
  }

  function AfterFault(fault: Fault, wheels: nat): Outcome {
    if fault == Pause then Paused else Interrupted(fault, wheels)
  }

  /** The attempt may have ended on a wheel call without an answer. */
  predicate MayLose(outcome: Outcome) {
    outcome.Interrupted? || outcome.Paused? || (outcome.Failed? && outcome.code == Timeout)
  }

  /** The attempt reports the wheel calls that were answered, whichever way it ends, and leaves
      at most the last one without an answer. */
  ghost predicate Honest(outcome: Outcome, calls: seq<WheelCall>) {
    && AnsweredIn(calls) <= MOST_PULSES && LostIn(calls) <= (if MayLose(outcome) then 1 else 0)
    && match outcome
       case Switched(from, to, n) =>
         n == AnsweredIn(calls) && 0 < n <= MaxPulses(from.height) && to.fingerprint != from.fingerprint
       case Interrupted(cause, n) => n == AnsweredIn(calls) && cause != Pause
       case Failed(code, n) => n == AnsweredIn(calls) && code in {Timeout, NotObserved}
       case Paused => true
  }

  method SwitchOnce(feed: Feed) returns (outcome: Outcome, ghost calls: seq<WheelCall>, ghost sight: Sight)
    modifies feed`calls, feed`log, feed`seen
    ensures feed.log == old(feed.log) + [outcome] && feed.calls == old(feed.calls) + calls
    ensures feed.seen == old(feed.seen) + Notices(sight)
    ensures Honest(outcome, calls) && Told(outcome, sight)
  {
    outcome, calls, sight := PulseUntilChanged(feed);
    feed.log := feed.log + [outcome];
  }

  /** What an attempt reports is what it met with: a switch is the first pulse's that decided for
      a new video, a missing one comes after exactly the limit of fruitless pulses, a timeout
      from a late answer or from no time left, and an exception from the call or the polls that
      raised it. Every pulse before the last was fruitless. */
  ghost predicate Told(outcome: Outcome, sight: Sight) {
    if !sight.begun.Done? then
      && sight.pulses == []
      && outcome == if sight.begun.Late? then Failed(Timeout, 0) else AfterFault(sight.begun.fault, 0)
    else
      && sight.pulses != [] && AllFruitless(sight.before, sight.pulses[..|sight.pulses| - 1])
      && (exists limit :: PulseLimit(sight.before.height, limit) && |sight.pulses| <= limit)
      && ToldByLast(outcome, sight.before, sight.pulses[|sight.pulses| - 1], |sight.pulses|)
  }

  ghost predicate ToldByLast(outcome: Outcome, before: FeedState, last: Pulse, n: nat) {
    match outcome
    case Switched(from, to, wheels) => from == before && wheels == n && Decides(before, last, Changed(to))
    case Interrupted(cause, wheels) => cause != Pause && RaisedIn(before, last, n, cause, wheels)
    case Paused => exists wheels :: RaisedIn(before, last, n, Pause, wheels)
    case Failed(code, wheels) =>
      if code == NotObserved then PulseLimit(before.height, n) && wheels == n && Fruitless(before, last)
      else
        && code == Timeout
        && if last.reply.Done? then wheels == n && Undecided(before, last.readings) && !last.left
           else wheels == n - 1 && last.reply.Late?
  }

  ghost predicate RaisedIn(before: FeedState, last: Pulse, n: nat, fault: Fault, wheels: nat) {
    || (wheels == n && Decides(before, last, Raised(fault)))
    || (wheels == n - 1 && last.reply == Threw(fault))
  }

  lemma LimitUnique(height: real, m: int, n: int)
    requires PulseLimit(height, m) && PulseLimit(height, n)
    ensures m == n
  {
    assert m < n ==> (m - 4) as real <= (n - 5) as real;
    assert n < m ==> (n - 4) as real <= (m - 5) as real;
  }

  lemma DecidedOnce(before: FeedState, p: Pulse, a: Observation, b: Observation)
    requires Decides(before, p, a)
    ensures !Undecided(before, p.readings)
    ensures Decides(before, p, b) ==> a == b
  {
    var i :| DecidedBy(before, p.readings, i, a);
    if Decides(before, p, b) {
      var j :| DecidedBy(before, p.readings, j, b);
    }
  }

  /** What the page did decides what is reported. */
  lemma ToldUnique(a: Outcome, b: Outcome, sight: Sight)
    requires Told(a, sight) && Told(b, sight)
    ensures a == b
  {
    if sight.begun.Done? {
      var n := |sight.pulses|;
      var last := sight.pulses[n - 1];
      forall r, q | Decides(sight.before, last, r) && Decides(sight.before, last, q)
        ensures r == q && !Undecided(sight.before, last.readings)
      {
        DecidedOnce(sight.before, last, r, q);
      }
    }
  }

  method PulseUntilChanged(feed: Feed) returns (outcome: Outcome, ghost calls: seq<WheelCall>, ghost sight: Sight)
    modifies feed`calls, feed`seen
    ensures feed.calls == old(feed.calls) + calls && feed.seen == old(feed.seen) + Notices(sight)
    ensures Honest(outcome, calls) && Told(outcome, sight)
  {
    calls, sight := [], Sight(Done, FeedState("", 0.0, 0.0), []);
    var begun := feed.Begin();
    sight := sight.(begun := begun);
    if begun.Late? {
      return Failed(Timeout, 0), calls, sight;
    }
    if begun.Threw? {
      return AfterFault(begun.fault, 0), calls, sight;
    }
    var before := feed.Capture();
    ghost var pulses: seq<Pulse> := [];
    outcome, calls, pulses := Pulses(feed, before);
    sight := Sight(begun, before, pulses);
  }

  /** The pulses of an attempt, up to the limit for the height captured. */
  method Pulses(feed: Feed, before: FeedState)
    returns (outcome: Outcome, ghost calls: seq<WheelCall>, ghost pulses: seq<Pulse>)
    modifies feed`calls, feed`seen
    ensures feed.calls == old(feed.calls) + calls && feed.seen == old(feed.seen) + PulsesNotices(before, pulses)
    ensures Honest(outcome, calls) && Told(outcome, Sight(Done, before, pulses))
  {
    calls, pulses := [], [];
    for index := 0 to MaxPulses(before.height)
      invariant feed.calls == old(feed.calls) + calls && feed.seen == old(feed.seen) + PulsesNotices(before, pulses)
      invariant index == AnsweredIn(calls) == |pulses| && LostIn(calls) == 0
      invariant AllFruitless(before, pulses)
    {
      var after;
      ghost var pulse, call;
      after, pulse, call := DispatchAndObserve(feed, before);
      AppendPulse(before, pulses, pulse);
      if after != Again(true) {
        LastTells(before, pulses, pulse, after, index);
        LastIsHonest(before, calls, call, pulse, after, index);
        outcome, calls, pulses := ToldAs(after, before, index), calls + [call], pulses + [pulse];
        return;
      }
      AppendCall(calls, call);
      calls, pulses := calls + [call], pulses + [pulse];
    }
    LimitTells(before, pulses);
    outcome := Failed(NotObserved, MaxPulses(before.height));
  }

  /** How an attempt ends with a pulse that came after `sent` fruitless ones. */
  function ToldAs(after: After, before: FeedState, sent: nat): Outcome {
    match after
    case Unanswered => Failed(Timeout, sent)
    case Raising(fault, answered) => AfterFault(fault, if answered then sent + 1 else sent)
    case Moved(state) => Switched(before, state, sent + 1)
    case Again(_) => Failed(Timeout, sent + 1)
  }

  /** The pulse that ended the attempt tells how it ended. */
  lemma LastTells(before: FeedState, pulses: seq<Pulse>, last: Pulse, after: After, sent: nat)
    requires AllFruitless(before, pulses) && |pulses| == sent < MaxPulses(before.height)
    requires Shows(before, last, after) && after != Again(true)
    ensures Told(ToldAs(after, before, sent), Sight(Done, before, pulses + [last]))
    ensures after.Moved? ==> last.reply.Done? && after.state.fingerprint != before.fingerprint
    ensures last.reply.Done? <==> !(after.Unanswered? || (after.Raising? && !after.answered))
  {
    assert (pulses + [last])[..|pulses|] == pulses;
    assert PulseLimit(before.height, MaxPulses(before.height));
    if after.Raising? {
      assert RaisedIn(before, last, |pulses| + 1, after.fault, if after.answered then sent + 1 else sent);
    }
  }

  lemma LastIsHonest(
    before: FeedState, calls: seq<WheelCall>, call: WheelCall, last: Pulse, after: After, sent: nat)
    requires AnsweredIn(calls) == sent < MaxPulses(before.height) && LostIn(calls) == 0
    requires Shows(before, last, after) && after != Again(true) && (call.Answered? <==> last.reply.Done?)
    ensures Honest(ToldAs(after, before, sent), calls + [call])
  {
    AppendCall(calls, call);
    LastTells(before, seq(sent, i => Pulse(Done, [], true)), last, after, sent);
  }

  lemma LimitTells(before: FeedState, pulses: seq<Pulse>)
    requires AllFruitless(before, pulses) && PulseLimit(before.height, |pulses|)
    ensures Told(Failed(NotObserved, |pulses|), Sight(Done, before, pulses))
  {
  }

  /** One wheel event, and what is then seen of it. */
  method DispatchAndObserve(feed: Feed, before: FeedState)
    returns (after: After, ghost pulse: Pulse, ghost call: WheelCall)
    modifies feed`calls, feed`seen
    ensures feed.calls == old(feed.calls) + [call] && feed.seen == old(feed.seen) + PulseNotices(before, pulse)
    ensures (call.Answered? <==> pulse.reply.Done?) && Shows(before, pulse, after)
  {
    var reply;
    reply, call := feed.Wheel();
    pulse := Pulse(reply, [], false);
    if reply.Late? {
      return Unanswered, pulse, call;
    }
    if reply.Threw? {
      return Raising(reply.fault, false), pulse, call;
    }
    var readings := feed.Poll();
    pulse := Pulse(reply, readings, false);
    var seen := AwaitStableChange(before, readings);
    if seen.Raised? {
      DecidedOnce(before, pulse, seen, seen);
      return Raising(seen.fault, true), pulse, call;
    }
    if seen.Changed? {
      DecidedOnce(before, pulse, seen, seen);
      return Moved(seen.state), pulse, call;
    }
    var left := feed.TimeLeft();
    return Again(left), Pulse(reply, readings, left), call;
  }

  lemma AppendPulse(before: FeedState, pulses: seq<Pulse>, pulse: Pulse)
    ensures PulsesNotices(before, pulses + [pulse]) == PulsesNotices(before, pulses) + PulseNotices(before, pulse)
  {
    assert (pulses + [pulse])[..|pulses|] == pulses;
  }

  /* The requested number of switches. */

  datatype Recovery = Recovered | RetryFailed | NotRetried | ReplacementNotFound

  datatype Record = Record(from: string, to: string, wheels: nat)

  datatype Report = Report(completed: nat, wheels: nat, records: seq<Record>, recoveries: seq<Recovery>)

  datatype Ending = Complete(report: Report) | Error(code: Code, report: Report) | StrategyPaused

  /** What a log of attempts amounts to. */
  function RecordsOf(log: seq<Outcome>): (records: seq<Record>)
    ensures |records| <= |log|
  {
    if log == [] then []
    else
      var last := log[|log| - 1];
      RecordsOf(log[..|log| - 1])
      + if last.Switched? then [Record(last.from.fingerprint, last.to.fingerprint, last.wheels)] else []
  }

  function WheelsOf(log: seq<Outcome>): nat {
    if log == [] then 0
    else
      var last := log[|log| - 1];
      WheelsOf(log[..|log| - 1]) + if last.Paused? then 0 else last.wheels
  }

  /** How many attempts may have ended on a wheel call without an answer. */
  function Loose(log: seq<Outcome>): nat {
    if log == [] then 0 else Loose(log[..|log| - 1]) + if MayLose(log[|log| - 1]) then 1 else 0
  }

  function ClosedIn(log: seq<Outcome>): nat {
    if log == [] then 0
    else
      var last := log[|log| - 1];
      ClosedIn(log[..|log| - 1]) + if last.Interrupted? && last.cause == Closed then 1 else 0
  }

  lemma AppendOutcome(log: seq<Outcome>, outcome: Outcome)
    ensures RecordsOf(log + [outcome]) == RecordsOf(log)
      + if outcome.Switched? then [Record(outcome.from.fingerprint, outcome.to.fingerprint, outcome.wheels)] else []
    ensures WheelsOf(log + [outcome]) == WheelsOf(log) + if outcome.Paused? then 0 else outcome.wheels
    ensures ClosedIn(log + [outcome]) ==
      ClosedIn(log) + if outcome.Interrupted? && outcome.cause == Closed then 1 else 0
    ensures Loose(log + [outcome]) == Loose(log) + if MayLose(outcome) then 1 else 0
  {
    assert (log + [outcome])[..|log|] == log;
  }

  /** The log of one run: only its last attempt may fail, and an earlier one can at most once
      have met a closed page, which was then replaced. */
  ghost predicate Orderly(log: seq<Outcome>) {
    && ClosedIn(log) <= 1
    && forall i :: 0 <= i < |log| ==> log[i].Switched? || (log[i].Interrupted? && log[i].cause == Closed)
  }

  lemma {:induction false} OrderlySize(log: seq<Outcome>)
    requires Orderly(log)
    ensures |log| == |RecordsOf(log)| + ClosedIn(log) && Loose(log) == ClosedIn(log)
    ensures WheelsOf(log) == WheelSum(RecordsOf(log)) + LostWheels(log)
  {
    OrderlyParts(log);
  }

  lemma {:induction false} OrderlyParts(log: seq<Outcome>)
    requires forall i :: 0 <= i < |log| ==> log[i].Switched? || (log[i].Interrupted? && log[i].cause == Closed)
    ensures |log| == |RecordsOf(log)| + ClosedIn(log) && Loose(log) == ClosedIn(log)
    ensures WheelsOf(log) == WheelSum(RecordsOf(log)) + LostWheels(log)
  {
    if log != [] {
      var front, last := log[..|log| - 1], log[|log| - 1];
      OrderlyParts(front);
      assert log == front + [last];
      AppendOutcome(front, last);
      if last.Switched? {
        WheelSumAppend(RecordsOf(front), Record(last.from.fingerprint, last.to.fingerprint, last.wheels));
      } else {
        assert RecordsOf(log) == RecordsOf(front);
      }
    }
  }

  lemma WheelSumAppend(records: seq<Record>, record: Record)
    ensures WheelSum(records + [record]) == WheelSum(records) + record.wheels
  {
    assert (records + [record])[..|records|] == records;
  }

  function WheelSum(records: seq<Record>): nat {
    if records == [] then 0 else WheelSum(records[..|records| - 1]) + records[|records| - 1].wheels
  }

  /** Wheel events of attempts that met a closed page. */
  function LostWheels(log: seq<Outcome>): nat {
    if log == [] then 0
    else
      var last := log[|log| - 1];
      LostWheels(log[..|log| - 1]) + if last.Interrupted? then last.wheels else 0
  }

  /** The report tells the attempts and the wheel calls that were answered. */
  ghost predicate Accounts(report: Report, log: seq<Outcome>, calls: seq<WheelCall>) {
    && report.records == RecordsOf(log) && report.completed == |report.records|
    && report.wheels == WheelsOf(log) == AnsweredIn(calls)
  }

  /** On every exit the answered calls are bounded and the others few. */
  ghost predicate Bounded(log: seq<Outcome>, calls: seq<WheelCall>) {
    AnsweredIn(calls) <= MOST_PULSES * |log| && LostIn(calls) <= Loose(log)
  }

  /** What is logged about page replacements: one entry for each replacement made, and one
      for a closed page that was not or could not be replaced. */
  predicate Logged(recoveries: seq<Recovery>, lifecycle: bool, replaced: int, complete: bool) {
    && (!lifecycle ==> recoveries == [] && replaced == 0)
    && (if complete then recoveries in {[], [Recovered]}
        else recoveries in {[], [Recovered], [RetryFailed], [Recovered, NotRetried], [ReplacementNotFound]})
    && replaced == multiset(recoveries)[Recovered] + multiset(recoveries)[RetryFailed]
  }

  /** What made the run stop short. */
  ghost predicate Explains(code: Code, last: Outcome, recoveries: seq<Recovery>, lifecycle: bool) {
    match last
    case Switched(_, _, _) => code == IntervalFailed
    case Failed(reason, _) => code == reason
    case Paused => false
    case Interrupted(cause, _) =>
      if cause != Closed then code == StateCaptureFailed
      else if lifecycle && recoveries == [ReplacementNotFound] then code == RecoveryFailed
      else code == ClosedTarget
           && (lifecycle ==> recoveries != [] && recoveries[|recoveries| - 1] in {RetryFailed, NotRetried})
  }

  /** A replacement not yet settled is settled by the next attempt. */
  function Settle(recoveries: seq<Recovery>, pending: bool, outcome: Recovery): seq<Recovery> {
    if pending then recoveries + [outcome] else recoveries
  }

  function Requested(requested: int): nat {
    if requested > 0 then requested else 0
  }

  /** Whether the one replacement was used, and whether its success is still open. */
  datatype Pages = Pages(used: bool, pending: bool) {
    function Replaced(): nat {
      if used then 1 else 0
    }
  }

  ghost predicate Consistent(run: Pages, recoveries: seq<Recovery>, lifecycle: bool) {
    && (run.pending ==> run.used) && (run.used ==> lifecycle)
    && recoveries == if run.used && !run.pending then [Recovered] else []
  }

  /** How a run may end, given its log and the wheel calls and replacements that were real. */
  ghost predicate Ended(
    ending: Ending, log: seq<Outcome>, calls: seq<WheelCall>, replaced: int, requested: int, lifecycle: bool)
  {
    && |log| <= Requested(requested) + 1 && replaced <= 1
    && Bounded(log, calls) && Loose(log) <= 2
    && (ending.StrategyPaused? <==> log != [] && log[|log| - 1].Paused?)
    && (!ending.StrategyPaused? ==>
         && Accounts(ending.report, log, calls)
         && Logged(ending.report.recoveries, lifecycle, replaced, ending.Complete?))
    && (ending.Complete? ==>
         ending.report.completed == Requested(requested) && Orderly(log) && replaced == ClosedIn(log))
    && (ending.Error? ==>
         && ending.report.completed < requested && log != []
         && Explains(ending.code, log[|log| - 1], ending.report.recoveries, lifecycle))
  }

  /** The report with one more attempt in it. */
  function Add(report: Report, outcome: Outcome): Report {
    match outcome
    case Switched(from, to, wheels) => report.(
      completed := report.completed + 1, wheels := report.wheels + wheels,
      records := report.records + [Record(from.fingerprint, to.fingerprint, wheels)])
    case Paused => report
    case _ => report.(wheels := report.wheels + outcome.wheels)
  }

  /** One more attempt leaves its wheel calls and its record in the report. */
  lemma AttemptedAccounts(
    report: Report, log: seq<Outcome>, calls: seq<WheelCall>, outcome: Outcome, more: seq<WheelCall>)
    requires Accounts(report, log, calls) && Honest(outcome, more) && !outcome.Paused?
    ensures Accounts(Add(report, outcome), log + [outcome], calls + more)
  {
    AppendOutcome(log, outcome);
    AppendCalls(calls, more);
    if !outcome.Switched? {
      assert RecordsOf(log + [outcome]) == RecordsOf(log);
    }
  }

  lemma AttemptedOrder(log: seq<Outcome>, calls: seq<WheelCall>, outcome: Outcome, more: seq<WheelCall>)
    requires Orderly(log) && Bounded(log, calls) && Honest(outcome, more)
    ensures |log| == |RecordsOf(log)| + ClosedIn(log)
    ensures Bounded(log + [outcome], calls + more) && Loose(log + [outcome]) <= 2
    ensures outcome.Switched? || (outcome.Interrupted? && outcome.cause == Closed && ClosedIn(log) == 0) ==>
      Orderly(log + [outcome])
    ensures ClosedIn(log + [outcome])
      == ClosedIn(log) + if outcome.Interrupted? && outcome.cause == Closed then 1 else 0
  {
    OrderlySize(log);
    AppendOutcome(log, outcome);
    AppendCalls(calls, more);
  }

  /** Where the loop stands between two attempts. */
  ghost predicate Going(
    report: Report, log: seq<Outcome>, calls: seq<WheelCall>, replaced: int, run: Pages, requested: int,
    lifecycle: bool)
  {
    && report.completed <= Requested(requested) && (run.pending ==> report.completed < requested)
    && Accounts(report, log, calls) && Orderly(log) && Bounded(log, calls)
    && replaced == ClosedIn(log) == run.Replaced()
    && Consistent(run, report.recoveries, lifecycle)
  }

  lemma RoundDone(
    report: Report, log: seq<Outcome>, calls: seq<WheelCall>, replaced: int, run: Pages, requested: int,
    lifecycle: bool, outcome: Outcome, more: seq<WheelCall>, stop: Option<Code>, recoveries: seq<Recovery>, next: Pages)
    requires Going(report, log, calls, replaced, run, requested, lifecycle) && report.completed < requested
    requires !outcome.Paused? && Honest(outcome, more)
    requires Absorbed(outcome, run, lifecycle, stop, recoveries, next)
    ensures
      var after := Add(report, outcome).(recoveries := recoveries);
      var replaced' := replaced + next.Replaced() - run.Replaced();
      if stop.Some? then Ended(Error(stop.value, after), log + [outcome], calls + more, replaced', requested, lifecycle)
      else Going(after, log + [outcome], calls + more, replaced', next, requested, lifecycle)
  {
    AttemptedOrder(log, calls, outcome, more);
    AttemptedAccounts(report, log, calls, outcome, more);
  }

  lemma RunCompletes(
    report: Report, log: seq<Outcome>, calls: seq<WheelCall>, replaced: int, run: Pages, requested: int,
    lifecycle: bool)
    requires Going(report, log, calls, replaced, run, requested, lifecycle) && report.completed >= requested
    ensures Ended(Complete(report), log, calls, replaced, requested, lifecycle)
  {
    OrderlySize(log);
    SettledIsLogged(report.recoveries, run, lifecycle);
  }

  lemma RestFails(
    report: Report, log: seq<Outcome>, calls: seq<WheelCall>, replaced: int, run: Pages, requested: int,
    lifecycle: bool)
    requires Going(report, log, calls, replaced, run, requested, lifecycle) && report.completed < requested
    requires log != [] && log[|log| - 1].Switched? && !run.pending
    ensures Ended(Error(IntervalFailed, report), log, calls, replaced, requested, lifecycle)
  {
    OrderlySize(log);
    SettledIsLogged(report.recoveries, run, lifecycle);
  }

  lemma PauseStops(
    report: Report, log: seq<Outcome>, calls: seq<WheelCall>, replaced: int, run: Pages, requested: int,
    lifecycle: bool, more: seq<WheelCall>)
    requires Going(report, log, calls, replaced, run, requested, lifecycle) && report.completed < requested
    requires Honest(Paused, more)
    ensures Ended(StrategyPaused, log + [Paused], calls + more, replaced, requested, lifecycle)
  {
    AttemptedOrder(log, calls, Paused, more);
  }

  /** Every attempt ended as what it met with tells. */
  ghost predicate AllTold(log: seq<Outcome>, sights: seq<Sight>) {
    |sights| == |log| && forall i :: 0 <= i < |log| ==> Told(log[i], sights[i])
  }

  lemma OneMoreTold(
    log: seq<Outcome>, sights: seq<Sight>, outcome: Outcome, sight: Sight, log0: seq<Outcome>,
    calls0: seq<WheelCall>, calls: seq<WheelCall>, more: seq<WheelCall>)
    requires AllTold(log, sights) && Told(outcome, sight)
    ensures AllTold(log + [outcome], sights + [sight])
    ensures log0 + log + [outcome] == log0 + (log + [outcome]) && calls0 + calls + more == calls0 + (calls + more)
  {
  }

  /** What a run asked of the page besides its attempts: rests answered and not, replacements
      found and not. */
  datatype Tally = Tally(rested: int, unrested: int, replaced: int, missed: int)

  /** The page so far, counted from `base`. */
  ghost function Since(feed: Feed, base: Tally): Tally
    reads feed
  {
    Tally(
      feed.rested - base.rested, feed.unrested - base.unrested, feed.replaced - base.replaced,
      feed.missed - base.missed)
  }

  /** Completes exactly the requested switches, or stops with an error that explains the last
      attempt; either way the report counts exactly the answered wheel calls. Only a strategy
      pause goes unreported. */
  method ExecuteVerifiedSwitches(feed: Feed, requested: int, lifecycle: bool)
    returns (ending: Ending, ghost log: seq<Outcome>, ghost sights: seq<Sight>, ghost calls: seq<WheelCall>,
      ghost tally: Tally)
    modifies feed
    ensures feed.log == old(feed.log) + log && feed.calls == old(feed.calls) + calls
    ensures tally == Since(feed, Tally(old(feed.rested), old(feed.unrested), old(feed.replaced), old(feed.missed)))
    ensures AllTold(log, sights)
    ensures Ended(ending, log, calls, tally.replaced, requested, lifecycle)
    ensures Justified(ending, log, tally, requested, lifecycle)
  {
    ghost var base := Tally(feed.rested, feed.unrested, feed.replaced, feed.missed);
    log, sights, calls := [], [], [];
    var report := Report(0, 0, [], []);
    var run := Pages(false, false);
    while report.completed < requested
      invariant feed.log == old(feed.log) + log && feed.calls == old(feed.calls) + calls && AllTold(log, sights)
      invariant Going(report, log, calls, feed.replaced - base.replaced, run, requested, lifecycle)
      invariant Peaceful(report.completed, requested, run, Since(feed, base))
      decreases requested - report.completed, !run.used
    {
      var outcome, stop;
      ghost var more, sight;
      outcome, more, sight := SwitchOnce(feed);
      stop, report, run := Advance(feed, outcome, report, log, calls, more, base, run, requested, lifecycle);
      OneMoreTold(log, sights, outcome, sight, old(feed.log), old(feed.calls), calls, more);
      log, sights, calls := log + [outcome], sights + [sight], calls + more;
      if stop.Some? {
        return stop.value, log, sights, calls, Since(feed, base);
      }
    }
    RunCompletes(report, log, calls, feed.replaced - base.replaced, run, requested, lifecycle);
    RunJustified(report, log, calls, run, Since(feed, base), requested, lifecycle);
    return Complete(report), log, sights, calls, Since(feed, base);
  }

  /** So far every rest between two switches went well, and a replacement asked for was found. */
  ghost predicate Peaceful(completed: nat, requested: int, run: Pages, tally: Tally) {
    && tally.rested == (if 0 < completed == requested then completed - 1 else completed)
    && tally.unrested == 0 && tally.missed == 0 && tally.replaced == run.Replaced()
  }

  /** Why the run ended as it did, besides its attempts. There is a rest after each switch but
      the last one requested, and the run stops at the first that fails, and only then with an
      interval error. A lifecycle is asked for a replacement once at most, for the first closed
      page, and only its failure to find one stops the run with a recovery error. */
  ghost predicate Justified(ending: Ending, log: seq<Outcome>, tally: Tally, requested: int, lifecycle: bool) {
    && tally.rested + tally.unrested
      == (if ending.Complete? && requested > 0 then requested - 1 else |RecordsOf(log)|)
    && tally.unrested == (if StopsWith(ending, IntervalFailed) then 1 else 0)
    && tally.replaced + tally.missed == (if lifecycle && ClosedIn(log) > 0 then 1 else 0)
    && tally.missed == if StopsWith(ending, RecoveryFailed) then 1 else 0
  }

  predicate StopsWith(ending: Ending, code: Code) {
    ending.Error? && ending.code == code
  }

  /** A lifecycle is asked exactly when a page is closed for the first time, and the run goes on
      exactly if it finds another. */
  predicate AskedFor(outcome: Outcome, run: Pages, lifecycle: bool, stop: Option<Code>, missed: int) {
    && missed == (if stop == Some(RecoveryFailed) then 1 else 0)
    && (outcome.Interrupted? && outcome.cause == Closed && lifecycle && !run.used ==>
         stop in {None, Some(RecoveryFailed)})
    && (stop == Some(RecoveryFailed) ==>
         outcome.Interrupted? && outcome.cause == Closed && lifecycle && !run.used)
    && stop != Some(IntervalFailed)
  }

  lemma StopJustified(
    report: Report, log: seq<Outcome>, calls: seq<WheelCall>, run: Pages, tally: Tally, requested: int,
    lifecycle: bool, outcome: Outcome, stop: Option<Code>, ending: Ending)
    requires Going(report, log, calls, tally.replaced, run, requested, lifecycle) && report.completed < requested
    requires Peaceful(report.completed, requested, run, tally) && !outcome.Switched?
    requires if outcome.Paused? then ending == StrategyPaused && stop.None?
      else stop.Some? && StopsWith(ending, stop.value)
    requires AskedFor(outcome, run, lifecycle, stop, if stop == Some(RecoveryFailed) then 1 else 0)
    ensures Justified(
      ending, log + [outcome], tally.(missed := if stop == Some(RecoveryFailed) then 1 else 0), requested, lifecycle)
  {
    AppendOutcome(log, outcome);
    assert RecordsOf(log + [outcome]) == RecordsOf(log);
  }

  lemma RestJustified(
    report: Report, log: seq<Outcome>, calls: seq<WheelCall>, run: Pages, tally: Tally, requested: int,
    lifecycle: bool, outcome: Outcome, ending: Ending)
    requires Going(report, log, calls, tally.replaced, run, requested, lifecycle) && report.completed < requested
    requires Peaceful(report.completed, requested, run, tally) && outcome.Switched?
    requires StopsWith(ending, IntervalFailed)
    ensures Justified(ending, log + [outcome], tally.(unrested := 1), requested, lifecycle)
  {
    AppendOutcome(log, outcome);
  }

  lemma RunJustified(
    report: Report, log: seq<Outcome>, calls: seq<WheelCall>, run: Pages, tally: Tally, requested: int,
    lifecycle: bool)
    requires Going(report, log, calls, tally.replaced, run, requested, lifecycle) && report.completed >= requested
    requires Peaceful(report.completed, requested, run, tally)
    ensures Justified(Complete(report), log, tally, requested, lifecycle)
  {
  }

  /** The rest of a round: what the attempt did enters the report, and the run stops, or
      rests and goes on. */
  method Advance(
    feed: Feed, outcome: Outcome, report: Report, ghost log: seq<Outcome>, ghost calls: seq<WheelCall>,
    ghost more: seq<WheelCall>, ghost base: Tally, run: Pages, requested: int, lifecycle: bool)
    returns (stop: Option<Ending>, after: Report, next: Pages)
    requires Going(report, log, calls, feed.replaced - base.replaced, run, requested, lifecycle)
    requires Honest(outcome, more) && report.completed < requested
    requires Peaceful(report.completed, requested, run, Since(feed, base))
    modifies feed`replaced, feed`missed, feed`rested, feed`unrested
    ensures
      if stop.Some?
      then Ended(stop.value, log + [outcome], calls + more, feed.replaced - base.replaced, requested, lifecycle)
      else Going(after, log + [outcome], calls + more, feed.replaced - base.replaced, next, requested, lifecycle)
    ensures
      if stop.Some? then Justified(stop.value, log + [outcome], Since(feed, base), requested, lifecycle)
      else Peaceful(after.completed, requested, next, Since(feed, base))
    ensures stop.None? ==>
      after.completed > report.completed || (after.completed == report.completed && next.used && !run.used)
  {
    ghost var tally := Since(feed, base);
    after, next := report, run;
    if outcome.Paused? {
      PauseStops(report, log, calls, tally.replaced, run, requested, lifecycle, more);
      StopJustified(report, log, calls, run, tally, requested, lifecycle, outcome, None, StrategyPaused);
      return Some(StrategyPaused), after, next;
    }
    var code, recoveries;
    code, recoveries, next := Absorb(feed, outcome, report.recoveries, run, lifecycle);
    RoundDone(report, log, calls, tally.replaced, run, requested, lifecycle, outcome, more, code, recoveries, next);
    after := Add(report, outcome).(recoveries := recoveries);
    if code.Some? {
      StopJustified(
        report, log, calls, run, tally, requested, lifecycle, outcome, code, Error(code.value, after));
      return Some(Error(code.value, after)), after, next;
    }
    if outcome.Switched? && after.completed < requested {
      var rested := feed.Rest();
      if !rested.Done? {
        RestFails(after, log + [outcome], calls + more, tally.replaced, next, requested, lifecycle);
        RestJustified(report, log, calls, run, tally, requested, lifecycle, outcome, Error(IntervalFailed, after));
        return Some(Error(IntervalFailed, after)), after, next;
      }
    }
    stop := None;
  }

  /** What an attempt does to the page replacement and its log. */
  ghost predicate Absorbed(
    outcome: Outcome, run: Pages, lifecycle: bool, stop: Option<Code>, after: seq<Recovery>, next: Pages)
  {
    if stop.Some? then
      && !outcome.Switched? && next == run
      && Logged(after, lifecycle, run.Replaced(), false) && Explains(stop.value, outcome, after, lifecycle)
    else
      && Consistent(next, after, lifecycle)
      && if outcome.Switched? then next == Pages(run.used, false)
         else outcome.Interrupted? && outcome.cause == Closed && !run.used && next == Pages(true, true)
  }

  /** What an attempt means for the replacement of pages: a success or a failure settles a
      pending replacement, a closed page is replaced once if a lifecycle can find another. */
  method Absorb(feed: Feed, outcome: Outcome, recoveries: seq<Recovery>, run: Pages, lifecycle: bool)
    returns (stop: Option<Code>, after: seq<Recovery>, next: Pages)
    requires !outcome.Paused? && Consistent(run, recoveries, lifecycle)
    requires outcome.Failed? ==> outcome.code in {Timeout, NotObserved}
    modifies feed`replaced, feed`missed
    ensures feed.replaced == old(feed.replaced) + next.Replaced() - run.Replaced()
    ensures AskedFor(outcome, run, lifecycle, stop, feed.missed - old(feed.missed))
    ensures Absorbed(outcome, run, lifecycle, stop, after, next)
  {
    if outcome.Failed? {
      SettledIsLogged(recoveries, run, lifecycle);
      return Some(outcome.code), Settle(recoveries, run.pending, RetryFailed), run;
    }
    if outcome.Switched? {
      SettledIsLogged(recoveries, run, lifecycle);
      return None, Settle(recoveries, run.pending, Recovered), run.(pending := false);
    }
    StopIsLogged(recoveries, run, lifecycle, outcome);
    if outcome.cause != Closed {
      return Some(StateCaptureFailed), Settle(recoveries, run.pending, RetryFailed), run;
    }
    if !lifecycle || run.used {
      after :=
        if run.pending then recoveries + [RetryFailed]
        else if lifecycle then recoveries + [NotRetried]
        else recoveries;
      return Some(ClosedTarget), after, run;
    }
    var found := feed.Replace();
    if !found {
      return Some(RecoveryFailed), recoveries + [ReplacementNotFound], run;
    }
    return None, recoveries, Pages(true, true);
  }

  function StopCode(cause: Fault, used: bool, lifecycle: bool): Code {
    if cause != Closed then StateCaptureFailed
    else if lifecycle && !used then RecoveryFailed
    else ClosedTarget
  }

  /** What an interruption that stops the run adds to the recovery log. */
  function StopEntries(cause: Fault, run: Pages, lifecycle: bool): seq<Recovery> {
    if run.pending then [RetryFailed]
    else if cause != Closed || !lifecycle then []
    else if run.used then [NotRetried]
    else [ReplacementNotFound]
  }

  lemma SettledIsLogged(recoveries: seq<Recovery>, run: Pages, lifecycle: bool)
    requires Consistent(run, recoveries, lifecycle)
    ensures Logged(Settle(recoveries, run.pending, RetryFailed), lifecycle, run.Replaced(), false)
    ensures Settle(recoveries, run.pending, Recovered) == if run.used then [Recovered] else []
    ensures Logged(Settle(recoveries, run.pending, Recovered), lifecycle, run.Replaced(), true)
    ensures Logged(Settle(recoveries, run.pending, Recovered), lifecycle, run.Replaced(), false)
  {
    assert Settle(recoveries, run.pending, RetryFailed) == if run.pending then [RetryFailed] else recoveries;
    assert Settle(recoveries, run.pending, Recovered) == if run.used then [Recovered] else [];
  }

  lemma StopIsLogged(recoveries: seq<Recovery>, run: Pages, lifecycle: bool, last: Outcome)
    requires Consistent(run, recoveries, lifecycle) && last.Interrupted?
    ensures
      var after := recoveries + StopEntries(last.cause, run, lifecycle);
      && Logged(after, lifecycle, run.Replaced(), false)
      && Explains(StopCode(last.cause, run.used, lifecycle), last, after, lifecycle)
    ensures Settle(recoveries, run.pending, RetryFailed) == recoveries + if run.pending then [RetryFailed] else []
    ensures recoveries + [] == recoveries
  {
    var entries := StopEntries(last.cause, run, lifecycle);
    if run.used && !run.pending {
      assert recoveries + entries == if last.cause == Closed then [Recovered, NotRetried] else [Recovered];
    } else {
      assert recoveries + entries == entries;
    }
  }

  /** The wheel events that really happened, on every exit: bounded, also after a pause. */
  lemma ScrollingBounded(
    ending: Ending, log: seq<Outcome>, calls: seq<WheelCall>, replaced: int, requested: int, lifecycle: bool)
    requires Ended(ending, log, calls, replaced, requested, lifecycle)
    ensures ScrolledIn(calls) <= MOST_PULSES * (Requested(requested) + 1) + 2
  {
    ScrolledVersusAnswered(calls);
  }

  /** What a report says of the wheel events: it counts the answered ones. It misses those that
      scrolled unanswered, at most one for each attempt that may have lost an answer, so at most
      two; it is right exactly when there was none, and always when the run completed without
      replacing its page. */
  lemma FinishedReport(
    ending: Ending, log: seq<Outcome>, calls: seq<WheelCall>, replaced: int, requested: int, lifecycle: bool)
    requires Ended(ending, log, calls, replaced, requested, lifecycle) && !ending.StrategyPaused?
    ensures ending.report.wheels == AnsweredIn(calls) <= MOST_PULSES * (Requested(requested) + 1)
    ensures ending.report.wheels <= ScrolledIn(calls) <= ending.report.wheels + Loose(log) <= ending.report.wheels + 2
    ensures ending.report.wheels == ScrolledIn(calls) <==> Lost(true) !in calls
    ensures ending.Complete? ==> ScrolledIn(calls) <= ending.report.wheels + replaced
    ensures ending.Complete? ==> ending.report.wheels == WheelSum(ending.report.records) + LostWheels(log)
    ensures ending.Complete? && ending.report.recoveries == [] ==>
      ending.report.wheels == WheelSum(ending.report.records) == ScrolledIn(calls)
  {
    ScrolledVersusAnswered(calls);
    if ending.Complete? {
      OrderlySize(log);
      NothingLost(log);
    }
  }

  /** One wheel call whose answer never comes: the page has scrolled and the report says it
      was not touched. */
  lemma HangingWheelGoesUncounted()
    ensures Honest(Failed(Timeout, 0), [Lost(true)]) && ScrolledIn([Lost(true)]) == 1
    ensures Ended(Error(Timeout, Report(0, 0, [], [])), [Failed(Timeout, 0)], [Lost(true)], 0, 1, false)
  {
  }

  lemma {:induction false} NothingLost(log: seq<Outcome>)
    requires forall i :: 0 <= i < |log| ==> log[i].Switched? || (log[i].Interrupted? && log[i].cause == Closed)
    ensures ClosedIn(log) == 0 ==> LostWheels(log) == 0
  {
    if log != [] {
      NothingLost(log[..|log| - 1]);
    }
  }
}
