/**
 The login limiter: failures are counted per peer in windows of five minutes, and the fifth
 failure of a window blocks the peer for fifteen. Every check first prunes every peer's entry.
 Instants are nanoseconds since an arbitrary origin.
 */
module LoginLimiter {
  import opened Wrappers

  const SECOND: nat := 1_000_000_000
  const FAILURE_WINDOW: nat := 300 * SECOND
  const BLOCK_DURATION: nat := 900 * SECOND
  const MAX_FAILURES_PER_WINDOW: nat := 5
  const U32_MAX: nat := 0xFFFF_FFFF

  datatype Decision = Allowed | RetryAfter(seconds: nat)

  datatype Entry = Entry(windowStarted: nat, failures: nat, blockedUntil: Option<nat>)

  function Since(now: nat, earlier: nat): nat {
    if now < earlier then 0 else now - earlier
  }

  predicate Blocked(e: Entry, now: nat) {
    e.blockedUntil.Some? && e.blockedUntil.value > now
  }

  /** What pruning keeps. */
  predicate Retained(e: Entry, now: nat) {
    Blocked(e, now) || Since(now, e.windowStarted) <= FAILURE_WINDOW + BLOCK_DURATION
  }

  // ------------------------------------------------------- one peer on its own

  function Prune(e: Option<Entry>, now: nat): Option<Entry> {
    if e.Some? && Retained(e.value, now) then e else None
  }

  function RetrySeconds(blockedUntil: nat, now: nat): nat {
    var seconds := Since(blockedUntil, now) / SECOND;
    if seconds < 1 then 1 else seconds
  }

  /** A check of a peer whose entry has already been pruned. */
  function CheckEntry(e: Option<Entry>, now: nat): (Option<Entry>, Decision) {
    match e
    case None => (None, Allowed)
    case Some(entry) =>
      if Blocked(entry, now) then (e, RetryAfter(RetrySeconds(entry.blockedUntil.value, now)))
      else if entry.blockedUntil.Some? || Since(now, entry.windowStarted) > FAILURE_WINDOW then
        (Some(Entry(now, 0, None)), Allowed)
      else (e, Allowed)
  }

  function FailEntry(e: Option<Entry>, now: nat): Entry {
    var entry := if e.Some? then e.value else Entry(now, 0, None);
    var window := if Since(now, entry.windowStarted) > FAILURE_WINDOW then Entry(now, 0, None) else entry;
    var failures := if window.failures >= U32_MAX then U32_MAX else window.failures + 1;
    var blocked := if failures >= MAX_FAILURES_PER_WINDOW then Some(now + BLOCK_DURATION) else window.blockedUntil;
    Entry(window.windowStarted, failures, blocked)
  }

  // ----------------------------------------------------------- the whole table

  function Lookup<P>(attempts: map<P, Entry>, peer: P): Option<Entry> {
    if peer in attempts then Some(attempts[peer]) else None
  }

  function PruneAll<P>(attempts: map<P, Entry>, now: nat): map<P, Entry> {
    map peer | peer in attempts && Retained(attempts[peer], now) :: attempts[peer]
  }

  /** The table after a check: everyone pruned, and the peer's own entry possibly restarted. */
  function AfterCheck<P>(attempts: map<P, Entry>, peer: P, now: nat): map<P, Entry> {
    var pruned := PruneAll(attempts, now);
    match CheckEntry(Lookup(pruned, peer), now).0
    case None => pruned
    case Some(entry) => pruned[peer := entry]
  }

  function Decide(e: Option<Entry>, now: nat): Decision {
    CheckEntry(Prune(e, now), now).1
  }

  class LoginRateLimiter<P(==)> {
    var attempts: map<P, Entry>

    constructor ()
      ensures attempts == map[]
    {
      attempts := map[];
    }

    method Check(peer: P, now: nat) returns (decision: Decision)
      modifies this
      ensures decision == Decide(Lookup(old(attempts), peer), now)
      ensures attempts == AfterCheck(old(attempts), peer, now)
    {
      attempts := PruneAll(attempts, now);
      if peer !in attempts {
        return Allowed;
      }
      var state := attempts[peer];
      if state.blockedUntil.Some? {
        if state.blockedUntil.value > now {
          assert attempts == attempts[peer := state];
          return RetryAfter(RetrySeconds(state.blockedUntil.value, now));
        }
        state := state.(blockedUntil := None);
        state := state.(failures := 0);
        state := state.(windowStarted := now);
      } else if Since(now, state.windowStarted) > FAILURE_WINDOW {
        state := state.(failures := 0);
        state := state.(windowStarted := now);
      }
      attempts := attempts[peer := state];
      decision := Allowed;
    }

    method RecordFailure(peer: P, now: nat)
      modifies this
      ensures attempts == old(attempts)[peer := FailEntry(Lookup(old(attempts), peer), now)]
    {
      var state := if peer in attempts then attempts[peer] else Entry(now, 0, None);
      if Since(now, state.windowStarted) > FAILURE_WINDOW {
        state := state.(windowStarted := now);
        state := state.(failures := 0);
        state := state.(blockedUntil := None);
      }
      state := state.(failures := if state.failures >= U32_MAX then U32_MAX else state.failures + 1);
      if state.failures >= MAX_FAILURES_PER_WINDOW {
        state := state.(blockedUntil := Some(now + BLOCK_DURATION));
      }
      attempts := attempts[peer := state];
    }

    method RecordSuccess(peer: P)
      modifies this
      ensures attempts == old(attempts) - {peer}
    {
      attempts := attempts - {peer};
    }
  }

  // ---------------------------------------------------------------------- runs

  datatype Event<P> =
    | Check(peer: P, at: nat)
    | Failure(peer: P, at: nat)
    | Success(peer: P, at: nat)

  function Step<P>(attempts: map<P, Entry>, e: Event<P>): map<P, Entry> {
    match e
    case Check(peer, now) => AfterCheck(attempts, peer, now)
    case Failure(peer, now) => attempts[peer := FailEntry(Lookup(attempts, peer), now)]
    case Success(peer, _) => attempts - {peer}
  }

  /** The table after a run of calls. */
  function Play<P>(events: seq<Event<P>>): map<P, Entry> {
    if events == [] then map[] else Step(Play(events[..|events| - 1]), events[|events| - 1])
  }

  /** The time of the last call of a run. */
  function LastAt<P>(events: seq<Event<P>>): nat {
    if events == [] then 0 else events[|events| - 1].at
  }

  /** Time never runs backwards. */
  predicate TimeOrdered<P>(events: seq<Event<P>>) {
    events != [] ==>
      var init := events[..|events| - 1];
      TimeOrdered(init) && LastAt(init) <= LastAt(events)
  }

  function Only<P(==)>(peer: P, events: seq<Event<P>>): seq<Event<P>> {
    if events == [] then []
    else
      var init, last := Only(peer, events[..|events| - 1]), events[|events| - 1];
      if last.peer == peer then init + [last] else init
  }

  function SoloStep<P>(e: Option<Entry>, event: Event<P>): Option<Entry> {
    match event
    case Check(_, now) => CheckEntry(Prune(e, now), now).0
    case Failure(_, now) => Some(FailEntry(e, now))
    case Success(_, _) => None
  }

  /** The peer's entry when only its own calls count. */
  function Solo<P(==)>(peer: P, events: seq<Event<P>>): Option<Entry> {
    if events == [] then None
    else
      var init, last := Solo(peer, events[..|events| - 1]), events[|events| - 1];
      if last.peer == peer then SoloStep(init, last) else init
  }

  // ----------------------------------------------------- peers do not interfere

  /** Equal, except that the shared table may already have dropped an entry that has expired. */
  predicate SameForNow(shared: Option<Entry>, solo: Option<Entry>, now: nat) {
    shared == solo || (shared == None && solo.Some? && !Retained(solo.value, now))
  }

  lemma SameDecision(shared: Option<Entry>, solo: Option<Entry>, since: nat, now: nat)
    requires SameForNow(shared, solo, since) && since <= now
    ensures Decide(shared, now) == Decide(solo, now) && Prune(shared, now) == Prune(solo, now)
  {
  }

  lemma StepSimulates<P>(attempts: map<P, Entry>, solo: Option<Entry>, peer: P, e: Event<P>, since: nat)
    requires SameForNow(Lookup(attempts, peer), solo, since) && since <= e.at
    ensures SameForNow(Lookup(Step(attempts, e), peer), if e.peer == peer then SoloStep(solo, e) else solo, e.at)
  {
    SameDecision(Lookup(attempts, peer), solo, since, e.at);
    assert Lookup(PruneAll(attempts, e.at), peer) == Prune(Lookup(attempts, peer), e.at);
  }

  lemma {:induction false} SharedTableSimulatesSolo<P>(peer: P, events: seq<Event<P>>, now: nat)
    requires TimeOrdered(events) && LastAt(events) <= now
    ensures SameForNow(Lookup(Play(events), peer), Solo(peer, events), now)
  {
    if events != [] {
      var init, last := events[..|events| - 1], events[|events| - 1];
      SharedTableSimulatesSolo(peer, init, last.at);
      StepSimulates(Play(init), Solo(peer, init), peer, last, last.at);
    }
  }

  lemma {:induction false} SoloIgnoresOthers<P>(peer: P, events: seq<Event<P>>)
    ensures Solo(peer, Only(peer, events)) == Solo(peer, events)
  {
    if events != [] {
      var init, last := events[..|events| - 1], events[|events| - 1];
      SoloIgnoresOthers(peer, init);
      if last.peer == peer {
        var own := Only(peer, init);
        assert (own + [last])[..|own + [last]| - 1] == own;
      }
    }
  }

  lemma {:induction false} OnlyKeepsOrder<P>(peer: P, events: seq<Event<P>>)
    requires TimeOrdered(events)
    ensures TimeOrdered(Only(peer, events)) && LastAt(Only(peer, events)) <= LastAt(events)
  {
    if events != [] {
      var init, last := events[..|events| - 1], events[|events| - 1];
      var own := Only(peer, init);
      OnlyKeepsOrder(peer, init);
      assert (own + [last])[..|own + [last]| - 1] == own;
    }
  }

  /** What a check decides on the shared table is what it decides on the peer's own entry. */
  lemma SoloDecides<P>(peer: P, events: seq<Event<P>>, now: nat)
    requires TimeOrdered(events) && LastAt(events) <= now
    ensures Decide(Lookup(Play(events), peer), now) == Decide(Solo(peer, events), now)
  {
    SharedTableSimulatesSolo(peer, events, now);
    SameDecision(Lookup(Play(events), peer), Solo(peer, events), now, now);
  }

  /** A peer is told exactly what it would be told were every other peer's call deleted. */
  lemma PeersDoNotInterfere<P>(peer: P, events: seq<Event<P>>, now: nat)
    requires TimeOrdered(events + [Check(peer, now)])
    ensures Decide(Lookup(Play(events), peer), now) == Decide(Lookup(Play(Only(peer, events)), peer), now)
  {
    assert (events + [Check(peer, now)])[..|events|] == events;
    SoloDecides(peer, events, now);
    OnlyKeepsOrder(peer, events);
    SoloDecides(peer, Only(peer, events), now);
    SoloIgnoresOthers(peer, events);
  }

  // ------------------------------------------------------- how fast one may fail

  /** The peer's last call was a check that let it through. */
  predicate LetThrough<P(==)>(peer: P, events: seq<Event<P>>) {
    events != [] &&
    var init, last := events[..|events| - 1], events[|events| - 1];
    if last.peer != peer then LetThrough(peer, init)
    else last.Check? && Decide(Lookup(Play(init), peer), last.at) == Allowed
  }

  /** As login does it: each failure follows an allowed check of that peer, and the peer never succeeds. */
  predicate OnlyFailedLogins<P(==)>(peer: P, events: seq<Event<P>>) {
    events != [] ==>
      var init, last := events[..|events| - 1], events[|events| - 1];
      && OnlyFailedLogins(peer, init)
      && (last.peer == peer ==> !last.Success? && (last.Failure? ==> LetThrough(peer, init)))
  }

  /**
   Logins in flight: after `k` calls `flights[k]` of the peer's logins have passed their check and
   not yet failed. There are never more than `m`; some may be abandoned, and none succeeds.
   */
  predicate InFlight<P(==)>(peer: P, events: seq<Event<P>>, flights: seq<nat>, m: nat) {
    |flights| == |events| + 1 &&
    if events == [] then flights[0] == 0
    else
      var init, last := events[..|events| - 1], events[|events| - 1];
      var before, after := flights[|events| - 1], flights[|events|];
      && InFlight(peer, init, flights[..|events|], m) && after <= m
      && if last.peer != peer then after <= before
         else if last.Check? then
           after <= before + if Decide(Lookup(Play(init), peer), last.at) == Allowed then 1 else 0
         else last.Failure? && after + 1 <= before
  }

  /** One login at a time. */
  function OneByOne<P(==)>(peer: P, events: seq<Event<P>>): (flights: seq<nat>)
    ensures |flights| == |events| + 1
  {
    if events == [] then [0]
    else OneByOne(peer, events[..|events| - 1]) + [if LetThrough(peer, events) then 1 else 0]
  }

  lemma {:induction false} OneByOneIsInFlight<P>(peer: P, events: seq<Event<P>>)
    requires OnlyFailedLogins(peer, events)
    ensures InFlight(peer, events, OneByOne(peer, events), 1)
    ensures OneByOne(peer, events)[|events|] == if LetThrough(peer, events) then 1 else 0
  {
    if events != [] {
      var init := events[..|events| - 1];
      OneByOneIsInFlight(peer, init);
      assert OneByOne(peer, events)[..|events|] == OneByOne(peer, init);
    }
  }

  /** When the peer failed, in order. */
  function FailureTimes<P(==)>(peer: P, events: seq<Event<P>>): seq<nat> {
    if events == [] then []
    else
      var init, last := FailureTimes(peer, events[..|events| - 1]), events[|events| - 1];
      if last.peer == peer && last.Failure? then init + [last.at] else init
  }

  function CountIn(times: seq<nat>, from: nat, to: nat): nat {
    if times == [] then 0
    else
      var last := times[|times| - 1];
      CountIn(times[..|times| - 1], from, to) + if from <= last <= to then 1 else 0
  }

  lemma {:induction false} CountInConcat(a: seq<nat>, b: seq<nat>, from: nat, to: nat)
    ensures CountIn(a + b, from, to) == CountIn(a, from, to) + CountIn(b, from, to)
    ensures CountIn(b, from, to) <= |b|
  {
    if b == [] {
      assert a + b == a;
    } else {
      assert (a + b)[..|a + b| - 1] == a + b[..|b| - 1];
      CountInConcat(a, b[..|b| - 1], from, to);
    }
  }

  /** A narrower interval holds no more. */
  lemma {:induction false} CountInNarrower(times: seq<nat>, from: nat, to: nat, from': nat, to': nat)
    requires forall k :: 0 <= k < |times| && from <= times[k] <= to ==> from' <= times[k] <= to'
    ensures CountIn(times, from, to) <= CountIn(times, from', to')
  {
    if times != [] {
      CountInNarrower(times[..|times| - 1], from, to, from', to');
    }
  }

  lemma {:induction false} CountInNothing(times: seq<nat>, from: nat, to: nat)
    requires forall k :: 0 <= k < |times| ==> !(from <= times[k] <= to)
    ensures CountIn(times, from, to) == 0
  {
    if times != [] {
      CountInNothing(times[..|times| - 1], from, to);
    }
  }

  /** All of `times` lie between `from` and `to`. */
  predicate AllIn(times: seq<nat>, from: nat, to: nat) {
    forall k :: 0 <= k < |times| ==> from <= times[k] <= to
  }

  /** At most so many of the failures before the window beginning at `start` lie in the 300 seconds up to it. */
  predicate QuietBefore(times: seq<nat>, start: nat, most: nat) {
    AllIn(times, 0, start) && CountIn(times, if start < FAILURE_WINDOW then 0 else start - FAILURE_WINDOW, start) <= most
  }

  /**
   What the peer's entry says about its failures `times`, all at or before `now`, when at most `m`
   logins are ever in flight and `flying` are now.
   */
  predicate EntryExplains(e: Option<Entry>, times: seq<nat>, now: nat, m: nat, flying: nat) {
    flying <= m &&
    match e
    case None => forall k :: 0 <= k < |times| ==> times[k] + FAILURE_WINDOW < now
    case Some(Entry(start, failures, blocked)) =>
      && failures <= |times| && failures + flying <= m + 4 && start <= now
      && QuietBefore(times[..|times| - failures], start, m + 3)
      && AllIn(times[|times| - failures..], start, start + FAILURE_WINDOW)
      && AllIn(times, 0, now)
      && (failures < 5 ==> blocked == None)
      && (failures >= 5 ==> blocked == Some(times[|times| - 1] + BLOCK_DURATION) && AllIn(times, 0, times[|times| - 1]))
  }

  /** A window opened at `now`, when the last one is over, is quiet before. */
  lemma FreshWindow(e: Option<Entry>, times: seq<nat>, now: nat, m: nat, flying: nat, most: nat)
    requires EntryExplains(e, times, now, m, flying)
    requires e.Some? ==> Since(now, e.value.windowStarted) > FAILURE_WINDOW && e.value.failures <= most
    ensures QuietBefore(times, now, most)
  {
    var from := if now < FAILURE_WINDOW then 0 else now - FAILURE_WINDOW;
    if e.Some? {
      var n := |times| - e.value.failures;
      assert times == times[..n] + times[n..];
      CountInConcat(times[..n], times[n..], from, now);
      CountInNothing(times[..n], from, now);
    } else {
      CountInNothing(times, from, now);
    }
  }

  /** So is one opened once a block is over. */
  lemma WindowAfterBlock(e: Entry, times: seq<nat>, now: nat, m: nat, flying: nat, most: nat)
    requires EntryExplains(Some(e), times, now, m, flying) && e.blockedUntil.Some? && !Blocked(e, now)
    ensures QuietBefore(times, now, most)
  {
    CountInNothing(times, if now < FAILURE_WINDOW then 0 else now - FAILURE_WINDOW, now);
  }

  lemma FreshEntry(times: seq<nat>, now: nat, m: nat, flying: nat)
    requires QuietBefore(times, now, m + 3) && flying <= m
    ensures EntryExplains(Some(Entry(now, 0, None)), times, now, m, flying)
  {
    assert times[..|times| - 0] == times;
  }

  lemma CheckExplained(e: Option<Entry>, times: seq<nat>, now: nat, m: nat, flying: nat, flying': nat)
    requires EntryExplains(e, times, now, m, flying) && 1 <= m && flying' <= m
    requires flying' <= flying || Decide(e, now) == Allowed
    ensures EntryExplains(CheckEntry(Prune(e, now), now).0, times, now, m, flying')
  {
    if e.Some? && Retained(e.value, now) && CheckEntry(e, now).0 != e {
      if e.value.blockedUntil.Some? {
        WindowAfterBlock(e.value, times, now, m, flying, m + 3);
      } else {
        FreshWindow(e, times, now, m, flying, m + 3);
      }
      FreshEntry(times, now, m, flying');
    }
  }

  lemma FirstFailureExplained(times: seq<nat>, now: nat, m: nat, flying: nat)
    requires QuietBefore(times, now, m + 3) && flying + 1 <= m
    ensures EntryExplains(Some(Entry(now, 1, None)), times + [now], now, m, flying)
  {
    var times' := times + [now];
    assert times'[..|times'| - 1] == times;
    assert times'[|times'| - 1..] == [now];
  }

  lemma NextFailureExplained(e: Entry, times: seq<nat>, now: nat, m: nat, flying: nat, flying': nat)
    requires EntryExplains(Some(e), times, now, m, flying) && flying' + 1 <= flying && m + 4 <= U32_MAX
    requires Since(now, e.windowStarted) <= FAILURE_WINDOW
    ensures EntryExplains(Some(FailEntry(Some(e), now)), times + [now], now, m, flying')
  {
    var times', n := times + [now], |times| - e.failures;
    assert times'[..n] == times[..n];
    assert times'[n..] == times[n..] + [now];
  }

  lemma FailureExplained(e: Option<Entry>, times: seq<nat>, now: nat, m: nat, flying: nat, flying': nat)
    requires EntryExplains(e, times, now, m, flying) && flying' + 1 <= flying && m + 4 <= U32_MAX
    ensures EntryExplains(Some(FailEntry(e, now)), times + [now], now, m, flying')
  {
    if e.Some? && Since(now, e.value.windowStarted) <= FAILURE_WINDOW {
      NextFailureExplained(e.value, times, now, m, flying, flying');
    } else {
      FreshWindow(e, times, now, m, flying, m + 3);
      FirstFailureExplained(times, now, m, flying');
    }
  }

  /** In the window that a new failure joins there are at most `m + 4`; before it, at most `m + 3` that are close enough. */
  lemma WindowPlusQuiet(e: Entry, times: seq<nat>, now: nat, m: nat, flying: nat, from: nat)
    requires EntryExplains(Some(e), times, now, m, flying) && from + FAILURE_WINDOW >= e.windowStarted
    ensures CountIn(times, from, from + FAILURE_WINDOW) <= 2 * m + 7
  {
    var n, start := |times| - e.failures, e.windowStarted;
    assert times == times[..n] + times[n..];
    CountInConcat(times[..n], times[n..], from, from + FAILURE_WINDOW);
    CountInNarrower(times[..n], from, from + FAILURE_WINDOW, if start < FAILURE_WINDOW then 0 else start - FAILURE_WINDOW, start);
  }

  lemma ExplainsLater(e: Option<Entry>, times: seq<nat>, past: nat, now: nat, m: nat, flying: nat, flying': nat)
    requires EntryExplains(e, times, past, m, flying) && past <= now && flying' <= flying
    ensures EntryExplains(e, times, now, m, flying')
  {
  }

  /** The peer's own entry explains its failures throughout. */
  lemma {:induction false} EntryExplainsRun<P>(peer: P, events: seq<Event<P>>, flights: seq<nat>, m: nat)
    requires TimeOrdered(events) && InFlight(peer, events, flights, m) && 1 <= m && m + 4 <= U32_MAX
    ensures EntryExplains(Solo(peer, events), FailureTimes(peer, events), LastAt(events), m, flights[|events|])
  {
    hide EntryExplains, CheckEntry, FailEntry, Play;
    if events == [] {
      NothingExplained(m);
    } else {
      var init, last := events[..|events| - 1], events[|events| - 1];
      var e, times := Solo(peer, init), FailureTimes(peer, init);
      var before, after := flights[|events| - 1], flights[|events|];
      EntryExplainsRun(peer, init, flights[..|events|], m);
      if last.peer != peer {
        ExplainsLater(e, times, LastAt(init), last.at, m, before, after);
      } else {
        ExplainsLater(e, times, LastAt(init), last.at, m, before, before);
        SoloDecides(peer, init, last.at);
        if last.Check? {
          CheckExplained(e, times, last.at, m, before, after);
        } else {
          FailureExplained(e, times, last.at, m, before, after);
        }
      }
    }
  }

  lemma NothingExplained(m: nat)
    ensures EntryExplains(None, [], 0, m, 0)
  {
  }

  lemma CountedFailure<P>(peer: P, events: seq<Event<P>>, flights: seq<nat>, m: nat, from: nat)
    requires TimeOrdered(events) && InFlight(peer, events, flights, m) && 1 <= m && m + 4 <= U32_MAX
    requires events != [] && |flights| == |events| + 1
    requires LastAt(events) <= from + FAILURE_WINDOW && Solo(peer, events).Some?
    ensures CountIn(FailureTimes(peer, events), from, from + FAILURE_WINDOW) <= 2 * m + 7
  {
    hide Solo, FailureTimes, InFlight, TimeOrdered, CountIn;
    EntryExplainsRun(peer, events, flights, m);
    WindowPlusQuiet(Solo(peer, events).value, FailureTimes(peer, events), LastAt(events), m, flights[|events|], from);
  }

  /** The last call is a failure of the peer in the interval. */
  predicate CountsIn<P(==)>(peer: P, events: seq<Event<P>>, from: nat)
    requires events != []
  {
    var last := events[|events| - 1];
    last.peer == peer && last.Failure? && from <= last.at <= from + FAILURE_WINDOW
  }

  lemma LastCounts<P>(peer: P, events: seq<Event<P>>, from: nat)
    requires events != []
    ensures CountsIn(peer, events, from) ==> Solo(peer, events).Some? && LastAt(events) <= from + FAILURE_WINDOW
    ensures !CountsIn(peer, events, from) ==>
      CountIn(FailureTimes(peer, events), from, from + FAILURE_WINDOW)
      == CountIn(FailureTimes(peer, events[..|events| - 1]), from, from + FAILURE_WINDOW)
  {
    var init, last := events[..|events| - 1], events[|events| - 1];
    var times := FailureTimes(peer, init);
    assert (times + [last.at])[..|times|] == times;
  }

  /**
   However the peers' calls interleave, and with up to `m` of the peer's logins in flight, no closed
   interval of 300 seconds holds more than `2 * m + 7` of its failures.
   */
  lemma {:induction false} FailuresInFlight<P>(peer: P, events: seq<Event<P>>, flights: seq<nat>, m: nat, from: nat)
    requires TimeOrdered(events) && InFlight(peer, events, flights, m) && 1 <= m && m + 4 <= U32_MAX
    ensures CountIn(FailureTimes(peer, events), from, from + 300_000_000_000) <= 2 * m + 7
  {
    if events != [] {
      LastCounts(peer, events, from);
      if CountsIn(peer, events, from) {
        CountedFailure(peer, events, flights, m, from);
      } else {
        FailuresInFlight(peer, events[..|events| - 1], flights[..|events|], m, from);
      }
    }
  }

  /** One login at a time, no closed interval of 300 seconds holds more than nine of a peer's failures. */
  lemma AtMostNineFailures<P>(peer: P, events: seq<Event<P>>, from: nat)
    requires TimeOrdered(events) && OnlyFailedLogins(peer, events)
    ensures CountIn(FailureTimes(peer, events), from, from + 300_000_000_000) <= 9
  {
    OneByOneIsInFlight(peer, events);
    FailuresInFlight(peer, events, OneByOne(peer, events), 1, from);
  }

  /** The fifth failure of a window blocks the peer until 900 seconds after it. */
  predicate FifthFailureAt<P(==)>(peer: P, events: seq<Event<P>>, at: nat) {
    && events != [] && events[|events| - 1] == Failure(peer, at)
    && Solo(peer, events).Some? && Solo(peer, events).value.failures == 5
  }

  /** While the block lasts nothing the peer or anyone else does changes the peer's entry. */
  lemma {:induction false} BlockLasts<P>(peer: P, events: seq<Event<P>>, k: nat, at: nat)
    requires TimeOrdered(events) && OnlyFailedLogins(peer, events) && k <= |events|
    requires FifthFailureAt(peer, events[..k], at)
    requires LastAt(events) < at + BLOCK_DURATION
    ensures Solo(peer, events) == Solo(peer, events[..k])
    ensures Solo(peer, events).value.blockedUntil == Some(at + BLOCK_DURATION)
    ensures !LetThrough(peer, events)
  {
    if k == |events| {
      assert events[..k] == events;
      OneByOneIsInFlight(peer, events);
      EntryExplainsRun(peer, events, OneByOne(peer, events), 1);
      LastFailureTime(peer, events, at);
    } else {
      var init, last := events[..|events| - 1], events[|events| - 1];
      assert init[..k] == events[..k];
      BlockLasts(peer, init, k, at);
      SoloDecides(peer, init, last.at);
    }
  }

  lemma LastFailureTime<P>(peer: P, events: seq<Event<P>>, at: nat)
    requires events != [] && events[|events| - 1] == Failure(peer, at)
    ensures FailureTimes(peer, events) == FailureTimes(peer, events[..|events| - 1]) + [at]
  {
  }

  lemma BlockedDecision(e: Entry, now: nat)
    requires Blocked(e, now)
    ensures Decide(Some(e), now) == RetryAfter(RetrySeconds(e.blockedUntil.value, now))
  {
  }

  /** Whole seconds, rounded down, but never less than one. */
  predicate Waits(seconds: nat, nanoseconds: nat) {
    seconds * 1_000_000_000 <= nanoseconds < (seconds + 1) * 1_000_000_000 || (seconds == 1 && nanoseconds < 1_000_000_000)
  }

  lemma WaitIsTold(until: nat, now: nat)
    requires now < until
    ensures Waits(RetrySeconds(until, now), until - now)
  {
  }

  /** After the fifth failure of a window every check in the next 900 seconds is refused, with the seconds that remain. */
  lemma FifthFailureBlocks<P>(peer: P, events: seq<Event<P>>, k: nat, at: nat, now: nat)
    requires TimeOrdered(events + [Check(peer, now)]) && OnlyFailedLogins(peer, events)
    requires k <= |events| && FifthFailureAt(peer, events[..k], at) && now < at + 900_000_000_000
    ensures Decide(Lookup(Play(events), peer), now).RetryAfter?
    ensures Waits(Decide(Lookup(Play(events), peer), now).seconds, at + 900_000_000_000 - now)
  {
    assert (events + [Check(peer, now)])[..|events|] == events;
    BlockLasts(peer, events, k, at);
    SoloDecides(peer, events, now);
    BlockedDecision(Solo(peer, events).value, now);
    WaitIsTold(at + BLOCK_DURATION, now);
  }

  /** And the first check from then on is let through, and starts a window without failures. */
  lemma BlockEnds<P>(peer: P, events: seq<Event<P>>, k: nat, at: nat, now: nat)
    requires TimeOrdered(events) && OnlyFailedLogins(peer, events) && LastAt(events) < at + 900_000_000_000 <= now
    requires k <= |events| && FifthFailureAt(peer, events[..k], at)
    ensures Decide(Lookup(Play(events), peer), now) == Allowed
    ensures var e := CheckEntry(Prune(Solo(peer, events), now), now).0; e == None || e == Some(Entry(now, 0, None))
  {
    BlockLasts(peer, events, k, at);
    SoloDecides(peer, events, now);
  }

  /** A check forgets exactly the entries that block nobody any more and whose window began more than 1200 seconds ago. */
  lemma CheckForgets<P>(attempts: map<P, Entry>, peer: P, now: nat, other: P)
    requires other in attempts
    ensures other !in AfterCheck(attempts, peer, now) <==>
      && (attempts[other].blockedUntil.Some? ==> attempts[other].blockedUntil.value <= now)
      && now > attempts[other].windowStarted + 1_200_000_000_000
  {
  }

  // ----------------------------------------------------- how long a block stands

  /** A call that ends a block opened in the window beginning at `start` before it runs out. */
  predicate Lifts<P(==)>(peer: P, start: nat, call: Event<P>) {
    call.peer == peer && (call.Success? || (call.Failure? && Since(call.at, start) > 300_000_000_000))
  }

  /** The entry of a window that blocks the peer at least until 900 seconds after `at`. */
  predicate Standing(e: Option<Entry>, start: nat, at: nat) {
    && e.Some? && e.value.windowStarted == start && e.value.failures >= 5
    && e.value.blockedUntil.Some? && e.value.blockedUntil.value >= at + 900_000_000_000
  }

  lemma StandingRefuses(e: Option<Entry>, start: nat, at: nat, now: nat)
    requires Standing(e, start, at) && now < at + BLOCK_DURATION
    ensures Decide(e, now).RetryAfter? && CheckEntry(Prune(e, now), now).0 == e
  {
  }

  lemma StandingStep<P>(peer: P, e: Option<Entry>, start: nat, at: nat, call: Event<P>)
    requires Standing(e, start, at) && call.peer == peer && at <= call.at < at + BLOCK_DURATION
    ensures if Lifts(peer, start, call) then Decide(SoloStep(e, call), call.at) == Allowed
            else Standing(SoloStep(e, call), start, at)
  {
    if call.Check? {
      StandingRefuses(e, start, at, call.at);
    }
  }

  /** The peer has just failed for the fifth time, or a later one, in its window. */
  predicate BlockedAt<P(==)>(peer: P, events: seq<Event<P>>, start: nat, at: nat) {
    && events != [] && events[|events| - 1] == Failure(peer, at)
    && Solo(peer, events).Some? && Solo(peer, events).value.windowStarted == start
    && Solo(peer, events).value.failures >= 5
  }

  predicate NothingLifts<P(==)>(peer: P, start: nat, events: seq<Event<P>>, k: nat) {
    forall j :: k <= j < |events| ==> !Lifts(peer, start, events[j])
  }

  lemma BlockedStands<P>(peer: P, events: seq<Event<P>>, start: nat, at: nat)
    requires BlockedAt(peer, events, start, at)
    ensures Standing(Solo(peer, events), start, at)
  {
  }

  lemma {:induction false} BlockStands<P>(peer: P, events: seq<Event<P>>, k: nat, start: nat, at: nat)
    requires TimeOrdered(events) && k <= |events| && BlockedAt(peer, events[..k], start, at)
    requires LastAt(events) < at + BLOCK_DURATION && NothingLifts(peer, start, events, k)
    ensures Standing(Solo(peer, events), start, at) && at <= LastAt(events)
  {
    if k == |events| {
      assert events[..k] == events;
      BlockedStands(peer, events, start, at);
    } else {
      var init, last := events[..|events| - 1], events[|events| - 1];
      assert init[..k] == events[..k];
      forall j | k <= j < |init| ensures !Lifts(peer, start, init[j]) {
        assert init[j] == events[j];
      }
      BlockStands(peer, init, k, start, at);
      if last.peer == peer {
        StandingStep(peer, Solo(peer, init), start, at, last);
      }
    }
  }

  lemma {:induction false} PrefixIsOrdered<P>(events: seq<Event<P>>, j: nat)
    requires TimeOrdered(events) && j <= |events|
    ensures TimeOrdered(events[..j]) && LastAt(events[..j]) <= LastAt(events)
  {
    if j < |events| {
      var init := events[..|events| - 1];
      assert init[..j] == events[..j];
      PrefixIsOrdered(init, j);
    } else {
      assert events[..j] == events;
    }
  }

  /** What a check of the peer right after the first `j` calls would be told. */
  function ToldAfter<P(==)>(peer: P, events: seq<Event<P>>, j: nat): Decision
    requires j <= |events|
  {
    Decide(Lookup(Play(events[..j]), peer), LastAt(events[..j]))
  }

  lemma ToldWhileStanding<P>(peer: P, events: seq<Event<P>>, k: nat, j: nat, start: nat, at: nat)
    requires TimeOrdered(events) && k <= j <= |events| && BlockedAt(peer, events[..k], start, at)
    requires LastAt(events) < at + BLOCK_DURATION && NothingLifts(peer, start, events[..j], k)
    ensures Standing(Solo(peer, events[..j]), start, at) && ToldAfter(peer, events, j).RetryAfter?
    ensures at <= LastAt(events[..j])
  {
    var prefix := events[..j];
    PrefixIsOrdered(events, j);
    assert prefix[..k] == events[..k];
    BlockStands(peer, prefix, k, start, at);
    SoloDecides(peer, prefix, LastAt(prefix));
    StandingRefuses(Solo(peer, prefix), start, at, LastAt(prefix));
  }

  lemma ToldAfterLifting<P>(peer: P, events: seq<Event<P>>, k: nat, j: nat, start: nat, at: nat)
    requires TimeOrdered(events) && k <= j < |events| && BlockedAt(peer, events[..k], start, at)
    requires LastAt(events) < at + BLOCK_DURATION && NothingLifts(peer, start, events[..j], k)
    requires Lifts(peer, start, events[j])
    ensures ToldAfter(peer, events, j + 1) == Allowed
  {
    hide Decide, SoloStep, Play, Standing, BlockedAt, NothingLifts;
    var lifted := events[..j + 1];
    ToldWhileStanding(peer, events, k, j, start, at);
    PrefixIsOrdered(events, j + 1);
    assert lifted[..j] == events[..j] && lifted[j] == events[j];
    StandingStep(peer, Solo(peer, events[..j]), start, at, events[j]);
    SoloDecides(peer, lifted, LastAt(lifted));
  }

  lemma NothingLiftsSnoc<P>(peer: P, start: nat, events: seq<Event<P>>, k: nat)
    requires events != [] && !Lifts(peer, start, events[|events| - 1]) && NothingLifts(peer, start, events[..|events| - 1], k)
    ensures NothingLifts(peer, start, events, k)
  {
    forall j | k <= j < |events| ensures !Lifts(peer, start, events[j]) {
      assert j < |events| - 1 ==> events[..|events| - 1][j] == events[j];
    }
  }

  lemma {:induction false} FirstLifting<P>(peer: P, start: nat, events: seq<Event<P>>, k: nat) returns (j: nat)
    requires k <= |events| && !NothingLifts(peer, start, events, k)
    ensures k <= j < |events| && Lifts(peer, start, events[j]) && NothingLifts(peer, start, events[..j], k)
  {
    var init := events[..|events| - 1];
    if k <= |init| && !NothingLifts(peer, start, init, k) {
      j := FirstLifting(peer, start, init, k);
      assert init[..j] == events[..j];
    } else {
      j := |events| - 1;
      if !Lifts(peer, start, events[j]) {
        NothingLiftsSnoc(peer, start, events, k);
      }
    }
  }

  /**
   In every run, however its logins overlap: for the 900 seconds after a fifth failure of a window a
   check of the peer would be refused at every moment if and only if none of its calls is a success,
   or a failure that comes more than 300 seconds after the window began.
   */
  lemma BlockStandsIff<P>(peer: P, events: seq<Event<P>>, k: nat, start: nat, at: nat)
    requires TimeOrdered(events) && k <= |events| && BlockedAt(peer, events[..k], start, at)
    requires LastAt(events) < at + 900_000_000_000
    ensures (forall j :: k <= j <= |events| ==> ToldAfter(peer, events, j).RetryAfter?) <==> NothingLifts(peer, start, events, k)
  {
    if NothingLifts(peer, start, events, k) {
      forall j | k <= j <= |events| ensures ToldAfter(peer, events, j).RetryAfter? {
        ToldWhileStanding(peer, events, k, j, start, at);
      }
    } else {
      var j := FirstLifting(peer, start, events, k);
      ToldAfterLifting(peer, events, k, j, start, at);
    }
  }

  // ------------------------------------------------------------ nine is reached

  /** A run of one peer so far: the entry it leaves, when it failed, and the time of its last call. */
  ghost predicate Leaves(events: seq<Event<int>>, e: Option<Entry>, times: seq<nat>, now: nat) {
    && TimeOrdered(events) && OnlyFailedLogins(0, events) && LastAt(events) <= now
    && Solo(0, events) == e && FailureTimes(0, events) == times
  }

  lemma AllowedCheck(events: seq<Event<int>>, e: Option<Entry>, times: seq<nat>, past: nat, now: nat)
    returns (events': seq<Event<int>>)
    requires Leaves(events, e, times, past) && past <= now && Decide(e, now) == Allowed
    ensures Leaves(events', CheckEntry(Prune(e, now), now).0, times, now) && LetThrough(0, events')
  {
    events' := events + [Check(0, now)];
    assert events'[..|events'| - 1] == events;
    SoloDecides(0, events, now);
  }

  lemma FailedLogin(events: seq<Event<int>>, e: Option<Entry>, times: seq<nat>, past: nat, now: nat)
    returns (events': seq<Event<int>>)
    requires Leaves(events, e, times, past) && past <= now && Decide(e, now) == Allowed
    ensures Leaves(events', Some(FailEntry(CheckEntry(Prune(e, now), now).0, now)), times + [now], now)
  {
    var checked := AllowedCheck(events, e, times, past, now);
    events' := checked + [Failure(0, now)];
    assert events'[..|events'| - 1] == checked;
  }

  /** Four failures at the very end of a window that a check opened. */
  lemma FourFailures(w: nat, t: nat) returns (events: seq<Event<int>>)
    requires w == 301 * SECOND && t == 601 * SECOND
    ensures Leaves(events, Some(Entry(w, 4, None)), [0, t, t, t, t], t)
  {
    events := FailedLogin([], None, [], 0, 0);
    events := AllowedCheck(events, Some(Entry(0, 1, None)), [0], 0, w);
    events := FailedLogin(events, Some(Entry(w, 0, None)), [0], w, t);
    events := FailedLogin(events, Some(Entry(w, 1, None)), [0, t], t, t);
    events := FailedLogin(events, Some(Entry(w, 2, None)), [0, t, t], t, t);
    events := FailedLogin(events, Some(Entry(w, 3, None)), [0, t, t, t], t, t);
  }

  /** Five more as soon as the next window may open. */
  lemma FiveMoreFailures(events: seq<Event<int>>, w: nat, times: seq<nat>, t: nat, u: nat) returns (events': seq<Event<int>>)
    requires Leaves(events, Some(Entry(w, 4, None)), times, t) && t == w + FAILURE_WINDOW && u == t + 1
    ensures Leaves(events', Some(Entry(u, 5, Some(u + BLOCK_DURATION))), times + [u, u, u, u, u], u)
  {
    events' := FailedLogin(events, Some(Entry(w, 4, None)), times, t, u);
    events' := FailedLogin(events', Some(Entry(u, 1, None)), times + [u], u, u);
    events' := FailedLogin(events', Some(Entry(u, 2, None)), times + [u] + [u], u, u);
    events' := FailedLogin(events', Some(Entry(u, 3, None)), times + [u] + [u] + [u], u, u);
    events' := FailedLogin(events', Some(Entry(u, 4, None)), times + [u] + [u] + [u] + [u], u, u);
    assert times + [u] + [u] + [u] + [u] + [u] == times + [u, u, u, u, u];
  }

  /** The bound is tight: four failures end one window and five open the next within one nanosecond. */
  lemma NineFailuresCanHappen() returns (events: seq<Event<int>>)
    ensures TimeOrdered(events) && OnlyFailedLogins(0, events)
    ensures CountIn(FailureTimes(0, events), 601_000_000_000, 901_000_000_000) == 9
  {
    var w, t, u := 301 * SECOND, 601 * SECOND, 601 * SECOND + 1;
    events := FourFailures(w, t);
    events := FiveMoreFailures(events, w, [0, t, t, t, t], t, u);
    var nine := [t, t, t, t, u, u, u, u, u];
    assert FailureTimes(0, events) == [0] + nine;
    CountAll(nine, t, t + FAILURE_WINDOW);
    CountInConcat([0], nine, t, t + FAILURE_WINDOW);
    CountInNothing([0], t, t + FAILURE_WINDOW);
  }

  lemma {:induction false} CountAll(times: seq<nat>, from: nat, to: nat)
    requires AllIn(times, from, to)
    ensures CountIn(times, from, to) == |times|
  {
    if times != [] {
      CountAll(times[..|times| - 1], from, to);
    }
  }

  // ------------------------------------------- the bound for overlapping logins

  /** A run of one peer with `flying` of its logins in flight, at most `m` at any time. */
  ghost predicate Overlaps(
    events: seq<Event<int>>, flights: seq<nat>, m: nat, e: Option<Entry>, times: seq<nat>, now: nat, flying: nat)
  {
    && TimeOrdered(events) && LastAt(events) <= now
    && InFlight(0, events, flights, m) && flights[|events|] == flying
    && Solo(0, events) == e && FailureTimes(0, events) == times
  }

  /** One more login passes its check. */
  lemma LoginChecked(
    events: seq<Event<int>>, flights: seq<nat>, m: nat, e: Option<Entry>, times: seq<nat>, past: nat, flying: nat, now: nat)
    returns (events': seq<Event<int>>, flights': seq<nat>)
    requires Overlaps(events, flights, m, e, times, past, flying) && past <= now
    requires Decide(e, now) == Allowed && flying + 1 <= m
    ensures Overlaps(events', flights', m, CheckEntry(Prune(e, now), now).0, times, now, flying + 1)
  {
    events', flights' := events + [Check(0, now)], flights + [flying + 1];
    assert events'[..|events'| - 1] == events && flights'[..|events'|] == flights;
    SoloDecides(0, events, now);
  }

  /** One of them fails. */
  lemma LoginFailed(
    events: seq<Event<int>>, flights: seq<nat>, m: nat, e: Option<Entry>, times: seq<nat>, past: nat, flying: nat, now: nat)
    returns (events': seq<Event<int>>, flights': seq<nat>)
    requires Overlaps(events, flights, m, e, times, past, flying) && past <= now && 1 <= flying
    ensures events' == events + [Failure(0, now)]
    ensures Overlaps(events', flights', m, Some(FailEntry(e, now)), times + [now], now, flying - 1)
  {
    events', flights' := events + [Failure(0, now)], flights + [flying - 1];
    assert events'[..|events'| - 1] == events && flights'[..|events'|] == flights;
  }

  /** The entry of an open window with so many failures, the last of them at `now`. */
  function Window(start: nat, failures: nat, now: nat): Entry {
    Entry(start, failures, if failures >= MAX_FAILURES_PER_WINDOW then Some(now + BLOCK_DURATION) else None)
  }

  lemma WindowFails(start: nat, failures: nat, past: nat, now: nat)
    requires start <= past <= now <= start + FAILURE_WINDOW && failures < U32_MAX
    requires failures >= MAX_FAILURES_PER_WINDOW ==> past == now
    ensures FailEntry(Some(Window(start, failures, past)), now) == Window(start, failures + 1, now)
  {
  }

  lemma WindowAllows(start: nat, failures: nat, past: nat, now: nat)
    requires start <= now <= start + FAILURE_WINDOW && failures < MAX_FAILURES_PER_WINDOW
    ensures Decide(Some(Window(start, failures, past)), now) == Allowed
    ensures CheckEntry(Prune(Some(Window(start, failures, past)), now), now).0 == Some(Window(start, failures, past))
  {
  }

  function Copies(n: nat, t: nat): seq<nat> {
    seq(n, _ => t)
  }

  /** `n` logins pass their checks in an open window that does not block yet. */
  lemma {:induction false} ManyChecked(
    events: seq<Event<int>>, flights: seq<nat>, m: nat, start: nat, failures: nat, past: nat, times: seq<nat>, flying: nat, now: nat, n: nat)
    returns (events': seq<Event<int>>, flights': seq<nat>)
    requires Overlaps(events, flights, m, Some(Window(start, failures, past)), times, past, flying)
    requires past <= now && start <= now <= start + FAILURE_WINDOW && failures < MAX_FAILURES_PER_WINDOW && flying + n <= m
    ensures Overlaps(events', flights', m, Some(Window(start, failures, past)), times, now, flying + n)
    decreases n
  {
    hide Overlaps, Window, Decide, CheckEntry;
    if n == 0 {
      events', flights' := events, flights;
      OverlapsLater(events, flights, m, Some(Window(start, failures, past)), times, past, flying, now);
    } else {
      WindowAllows(start, failures, past, now);
      events', flights' := ManyChecked(events, flights, m, start, failures, past, times, flying, now, n - 1);
      events', flights' := LoginChecked(events', flights', m, Some(Window(start, failures, past)), times, now, flying + (n - 1), now);
    }
  }

  lemma OverlapsLater(
    events: seq<Event<int>>, flights: seq<nat>, m: nat, e: Option<Entry>, times: seq<nat>, past: nat, flying: nat, now: nat)
    requires Overlaps(events, flights, m, e, times, past, flying) && past <= now
    ensures Overlaps(events, flights, m, e, times, now, flying)
  {
  }

  lemma MoreCopies(times: seq<nat>, n: nat, t: nat)
    ensures times + Copies(n, t) + [t] == times + Copies(n + 1, t)
  {
  }

  /** `n` of the logins in flight fail at one moment of the window. */
  lemma {:induction false} ManyFailed(
    events: seq<Event<int>>, flights: seq<nat>, m: nat, start: nat, failures: nat, times: seq<nat>, flying: nat, now: nat, n: nat)
    returns (events': seq<Event<int>>, flights': seq<nat>)
    requires Overlaps(events, flights, m, Some(Window(start, failures, now)), times, now, flying)
    requires start <= now <= start + FAILURE_WINDOW && n <= flying && failures + n <= U32_MAX
    ensures Overlaps(events', flights', m, Some(Window(start, failures + n, now)), times + Copies(n, now), now, flying - n)
    ensures n > 0 ==> events' != [] && events'[|events'| - 1] == Failure(0, now)
    decreases n
  {
    hide Overlaps, Window, FailEntry;
    if n == 0 {
      events', flights' := events, flights;
      assert times + Copies(0, now) == times;
    } else {
      events', flights' := ManyFailed(events, flights, m, start, failures, times, flying, now, n - 1);
      WindowFails(start, failures + (n - 1), now, now);
      MoreCopies(times, n - 1, now);
      events', flights' := LoginFailed(
        events', flights', m, Some(Window(start, failures + (n - 1), now)), times + Copies(n - 1, now), now, flying - (n - 1), now);
    }
  }

  /** A login that nothing else overlaps: checked and failed. */
  lemma LoginAlone(
    events: seq<Event<int>>, flights: seq<nat>, m: nat, start: nat, failures: nat, past: nat, times: seq<nat>, now: nat)
    returns (events': seq<Event<int>>, flights': seq<nat>)
    requires Overlaps(events, flights, m, Some(Window(start, failures, past)), times, past, 0) && 1 <= m
    requires start <= past <= now <= start + FAILURE_WINDOW && failures < MAX_FAILURES_PER_WINDOW
    ensures Overlaps(events', flights', m, Some(Window(start, failures + 1, now)), times + [now], now, 0)
  {
    hide Overlaps, Window, Decide, CheckEntry, FailEntry;
    WindowAllows(start, failures, past, now);
    events', flights' := LoginChecked(events, flights, m, Some(Window(start, failures, past)), times, past, 0, now);
    WindowFails(start, failures, past, now);
    events', flights' := LoginFailed(events', flights', m, Some(Window(start, failures, past)), times, now, 1, now);
  }

  /** Failures up to the fourth, one by one. */
  lemma {:induction false} UpToFour(
    events: seq<Event<int>>, flights: seq<nat>, m: nat, start: nat, failures: nat, past: nat, times: seq<nat>, now: nat)
    returns (events': seq<Event<int>>, flights': seq<nat>)
    requires Overlaps(events, flights, m, Some(Window(start, failures, past)), times, past, 0) && 1 <= m
    requires start <= past <= now <= start + FAILURE_WINDOW && failures <= 4 && (failures == 4 ==> past == now)
    ensures Overlaps(events', flights', m, Some(Window(start, 4, now)), times + Copies(4 - failures, now), now, 0)
    decreases 4 - failures
  {
    hide Overlaps, Window;
    if failures == 4 {
      events', flights' := events, flights;
      assert times + Copies(0, now) == times;
    } else {
      events', flights' := LoginAlone(events, flights, m, start, failures, past, times, now);
      events', flights' := UpToFour(events', flights', m, start, failures + 1, now, times + [now], now);
      assert times + [now] + Copies(4 - (failures + 1), now) == times + Copies(4 - failures, now);
    }
  }

  /** A window that opened at `w`, empty, with one old failure before it. */
  lemma OpenedWindow(m: nat, w: nat) returns (events: seq<Event<int>>, flights: seq<nat>)
    requires 1 <= m && w == 301 * SECOND
    ensures Overlaps(events, flights, m, Some(Window(w, 0, w)), [0], w, 0)
  {
    events, flights := LoginChecked([], [0], m, None, [], 0, 0, 0);
    events, flights := LoginFailed(events, flights, m, None, [], 0, 1, 0);
    assert Some(FailEntry(None, 0)) == Some(Window(0, 1, 0)) && [] + [0] == [0];
    assert CheckEntry(Prune(Some(Window(0, 1, 0)), w), w).0 == Some(Window(w, 0, w));
    events, flights := LoginChecked(events, flights, m, Some(Window(0, 1, 0)), [0], 0, 0, w);
    events, flights := Abandoned(events, flights, m, Some(Window(w, 0, w)), [0], w, 1);
  }

  /** A login in flight may be given up, at another peer's next call. */
  lemma Abandoned(
    events: seq<Event<int>>, flights: seq<nat>, m: nat, e: Option<Entry>, times: seq<nat>, now: nat, flying: nat)
    returns (events': seq<Event<int>>, flights': seq<nat>)
    requires Overlaps(events, flights, m, e, times, now, flying) && 1 <= flying
    ensures Overlaps(events', flights', m, e, times, now, flying - 1)
  {
    events', flights' := events + [Success(1, now)], flights + [flying - 1];
    assert events'[..|events'| - 1] == events && flights'[..|events'|] == flights;
  }

  /** The end of a window: four failures, then `m` logins in flight of which all but one fail. */
  lemma CrowdedEnd(m: nat, w: nat, t: nat) returns (events: seq<Event<int>>, flights: seq<nat>)
    requires 1 <= m && m + 4 <= U32_MAX && w == 301 * SECOND && t == 601 * SECOND
    ensures Overlaps(events, flights, m, Some(Window(w, m + 3, t)), [0] + Copies(m + 3, t), t, 1)
    ensures m > 1 ==> events != [] && events[|events| - 1] == Failure(0, t)
  {
    hide Overlaps, Window;
    events, flights := OpenedWindow(m, w);
    events, flights := UpToFour(events, flights, m, w, 0, w, [0], t);
    events, flights := ManyChecked(events, flights, m, w, 4, t, [0] + Copies(4, t), 0, t, m);
    events, flights := ManyFailed(events, flights, m, w, 4, [0] + Copies(4, t), m, t, m - 1);
    assert [0] + Copies(4, t) + Copies(m - 1, t) == [0] + Copies(m + 3, t);
  }

  lemma LateFailureReopens(w: nat, failures: nat, t: nat, u: nat)
    requires u > w + FAILURE_WINDOW
    ensures FailEntry(Some(Window(w, failures, t)), u) == Window(u, 1, u)
  {
  }

  /** The last of them fails just after the window, which opens the next one, and the same again. */
  lemma CrowdedStart(m: nat, w: nat, t: nat, u: nat) returns (events: seq<Event<int>>, flights: seq<nat>)
    requires 1 <= m && m + 4 <= U32_MAX && w == 301 * SECOND && t == 601 * SECOND && u == t + 1
    ensures Overlaps(events, flights, m, Some(Window(u, m + 4, u)), [0] + Copies(m + 3, t) + Copies(m + 4, u), u, 0)
  {
    hide Overlaps, Window, FailEntry;
    var before := [0] + Copies(m + 3, t);
    events, flights := CrowdedEnd(m, w, t);
    LateFailureReopens(w, m + 3, t, u);
    events, flights := LoginFailed(events, flights, m, Some(Window(w, m + 3, t)), before, t, 1, u);
    events, flights := UpToFour(events, flights, m, u, 1, u, before + [u], u);
    events, flights := ManyChecked(events, flights, m, u, 4, u, before + [u] + Copies(3, u), 0, u, m);
    events, flights := ManyFailed(events, flights, m, u, 4, before + [u] + Copies(3, u), m, u, m);
    assert before + [u] + Copies(3, u) + Copies(m, u) == before + Copies(m + 4, u);
  }

  /** So `2 * m + 7` is reached, for every `m`. */
  lemma BoundIsReached(m: nat) returns (events: seq<Event<int>>, flights: seq<nat>)
    requires 1 <= m && m + 4 <= U32_MAX
    ensures TimeOrdered(events) && InFlight(0, events, flights, m)
    ensures CountIn(FailureTimes(0, events), 601_000_000_000, 901_000_000_000) == 2 * m + 7
  {
    hide InFlight, TimeOrdered, Solo, CountIn;
    var w, t, u := 301 * SECOND, 601 * SECOND, 601 * SECOND + 1;
    events, flights := CrowdedStart(m, w, t, u);
    var recent := Copies(m + 3, t) + Copies(m + 4, u);
    assert [0] + Copies(m + 3, t) + Copies(m + 4, u) == [0] + recent;
    CountAll(recent, t, t + FAILURE_WINDOW);
    CountInConcat([0], recent, t, t + FAILURE_WINDOW);
    CountInNothing([0], t, t + FAILURE_WINDOW);
  }

  /** And a login in flight can lift a block: two logins overlap, the first blocks, the second is late. */
  lemma LateFailureLiftsBlock() returns (events: seq<Event<int>>, flights: seq<nat>, k: nat)
    ensures TimeOrdered(events) && InFlight(0, events, flights, 2)
    ensures k <= |events| && BlockedAt(0, events[..k], 301_000_000_000, 601_000_000_000)
    ensures LastAt(events) < 1_501_000_000_000 && ToldAfter(0, events, |events|) == Allowed
  {
    var w, t, u := 301 * SECOND, 601 * SECOND, 601 * SECOND + 1;
    var blocked, flights' := CrowdedEnd(2, w, t);
    events, flights := LoginFailed(blocked, flights', 2, Some(Window(w, 5, t)), [0] + Copies(5, t), t, 1, u);
    k := |blocked|;
    assert events[..k] == blocked && events[..|events|] == events;
    SoloDecides(0, events, u);
  }
}
