/** The relay's in-memory sliding-window limiter, and what it bounds over a whole run. */
module RateLimit {

  /** How many leading events lie before the cutoff: what the popping loop removes. */
  function Stale(events: seq<real>, cutoff: real): (n: nat)
    ensures n <= |events|
    ensures forall i :: 0 <= i < n ==> events[i] < cutoff
    ensures n < |events| ==> events[n] >= cutoff
    decreases |events|
  {
    if events != [] && events[0] < cutoff then 1 + Stale(events[1..], cutoff) else 0
  }

  function EventsOf(events: map<string, seq<real>>, key: string): seq<real> {
    if key in events then events[key] else []
  }

  datatype Verdict = Verdict(allowed: bool, events: map<string, seq<real>>)

  /** One call of the limiter as a function on its table of events. */
  function Judge(limit: nat, window: real, events: map<string, seq<real>>, key: string, now: real): Verdict {
    if limit == 0 then
      Verdict(true, events)
    else
      var mine := EventsOf(events, key);
      var kept := mine[Stale(mine, now - window)..];
      if |kept| >= limit then
        Verdict(false, events[key := kept])
      else
        Verdict(true, events[key := kept + [now]])
  }

  class SlidingWindowLimiter {
    const limit: nat
    const window: real
    var events: map<string, seq<real>>

    constructor (limit: int, windowSeconds: real)
      ensures this.limit == if limit < 0 then 0 else limit
      ensures window == windowSeconds && events == map[]
    {
      this.limit := if limit < 0 then 0 else limit;
      this.window := windowSeconds;
      this.events := map[];
    }

    method Allow(key: string, now: real) returns (allowed: bool)
      modifies this`events
      ensures Verdict(allowed, events) == Judge(limit, window, old(events), key, now)
    {
      if limit == 0 {
        return true;
      }
      var cutoff := now - window;
      var recent := EventsOf(events, key);
      ghost var before := recent;
      ghost var popped := 0;
      while recent != [] && recent[0] < cutoff
        invariant popped <= |before| && recent == before[popped..]
        invariant forall i :: 0 <= i < popped ==> before[i] < cutoff
        decreases |recent|
      {
        recent := recent[1..];
        popped := popped + 1;
      }
      assert popped == Stale(before, cutoff);
      if |recent| >= limit {
        events := events[key := recent];
        return false;
      }
      events := events[key := recent + [now]];
      return true;
    }
  }

  // ---------------------------------------------------------------- whole runs

  datatype Call = Call(key: string, now: real)

  /** The limiter's table after a run of calls, from an empty table. */
  function Run(limit: nat, window: real, calls: seq<Call>): map<string, seq<real>>
    decreases |calls|
  {
    if calls == [] then map[]
    else
      var last := calls[|calls| - 1];
      Judge(limit, window, Run(limit, window, calls[..|calls| - 1]), last.key, last.now).events
  }

  /** Whether call number `i` of the run was let through. */
  predicate Allowed(limit: nat, window: real, calls: seq<Call>, i: nat)
    requires i < |calls|
  {
    Judge(limit, window, Run(limit, window, calls[..i]), calls[i].key, calls[i].now).allowed
  }

  /** The times of the run's calls for `key` that were let through, in order. */
  function Admissions(limit: nat, window: real, calls: seq<Call>, key: string): seq<real>
    decreases |calls|
  {
    if calls == [] then []
    else
      var k := |calls| - 1;
      Admissions(limit, window, calls[..k], key)
      + if calls[k].key == key && Allowed(limit, window, calls, k) then [calls[k].now] else []
  }

  /** The clock never runs backwards. */
  ghost predicate Ascending(times: seq<real>) {
    forall i, j :: 0 <= i < j < |times| ==> times[i] <= times[j]
  }

  ghost predicate ClockOk(calls: seq<Call>) {
    forall i, j :: 0 <= i < j < |calls| ==> calls[i].now <= calls[j].now
  }

  /** How many of `times` lie in the closed interval from `lo` to `hi`. */
  function CountIn(times: seq<real>, lo: real, hi: real): (n: nat)
    ensures n <= |times|
    decreases |times|
  {
    if times == [] then 0
    else (if lo <= times[0] <= hi then 1 else 0) + CountIn(times[1..], lo, hi)
  }

  lemma {:induction false} CountInSplits(a: seq<real>, b: seq<real>, lo: real, hi: real)
    ensures CountIn(a + b, lo, hi) == CountIn(a, lo, hi) + CountIn(b, lo, hi)
    decreases |a|
  {
    if a == [] {
      assert a + b == b;
    } else {
      assert (a + b)[1..] == a[1..] + b;
      CountInSplits(a[1..], b, lo, hi);
    }
  }

  lemma {:induction false} CountInNone(times: seq<real>, lo: real, hi: real)
    requires forall i :: 0 <= i < |times| ==> !(lo <= times[i] <= hi)
    ensures CountIn(times, lo, hi) == 0
    decreases |times|
  {
    if times != [] {
      CountInNone(times[1..], lo, hi);
    }
  }

  lemma {:induction false} CountInAll(times: seq<real>, lo: real, hi: real)
    requires forall i :: 0 <= i < |times| ==> lo <= times[i] <= hi
    ensures CountIn(times, lo, hi) == |times|
    decreases |times|
  {
    if times != [] {
      CountInAll(times[1..], lo, hi);
    }
  }

  /** Any admission and the one `limit` places later are more than a window apart. */
  ghost predicate Spaced(limit: nat, window: real, times: seq<real>) {
    forall i, j :: 0 <= i && j == i + limit && j < |times| ==> times[j] - times[i] > window
  }

  /** What the table holds for a key: the admissions still in the window, and nothing older was kept back. */
  ghost predicate Tracks(limit: nat, window: real, admitted: seq<real>, held: seq<real>, clock: real) {
    && Ascending(admitted)
    && Spaced(limit, window, admitted)
    && (forall i :: 0 <= i < |admitted| ==> admitted[i] <= clock)
    && |held| <= limit && |held| <= |admitted|
    && held == admitted[|admitted| - |held|..]
    && (forall i :: 0 <= i < |admitted| - |held| ==> admitted[i] < clock - window)
  }

  /** Purging the table at a later time leaves exactly the admissions of the closed window ending then. */
  lemma PurgeKeepsTracks(limit: nat, window: real, admitted: seq<real>, held: seq<real>, clock: real, now: real)
    requires Tracks(limit, window, admitted, held, clock) && clock <= now
    ensures Tracks(limit, window, admitted, held[Stale(held, now - window)..], now)
  {
    var gone := Stale(held, now - window);
    var edge := |admitted| - |held|;
    forall i | 0 <= i < edge + gone ensures admitted[i] < now - window {
      if i >= edge {
        assert admitted[i] == held[i - edge];
      }
    }
    assert held[gone..] == admitted[edge + gone..];
    hide Spaced, Stale;
  }

  lemma HeldIsTheWindow(limit: nat, window: real, admitted: seq<real>, kept: seq<real>, now: real)
    requires Tracks(limit, window, admitted, kept, now)
    requires kept != [] ==> kept[0] >= now - window
    ensures CountIn(admitted, now - window, now) == |kept|
  {
    hide Spaced, CountIn;
    var cut := |admitted| - |kept|;
    forall i | 0 <= i < |kept| ensures now - window <= kept[i] <= now {
      assert kept[i] == admitted[cut + i] && kept[0] == admitted[cut];
    }
    assert admitted == admitted[..cut] + kept;
    CountInSplits(admitted[..cut], kept, now - window, now);
    CountInNone(admitted[..cut], now - window, now);
    CountInAll(kept, now - window, now);
  }

  lemma TracksHoldsFew(limit: nat, window: real, admitted: seq<real>, held: seq<real>, clock: real)
    requires Tracks(limit, window, admitted, held, clock)
    ensures |held| <= limit
  {
  }

  lemma NothingTracked(limit: nat, window: real, clock: real)
    ensures Tracks(limit, window, [], [], clock)
  {
  }

  lemma LaterClockKeepsTracks(limit: nat, window: real, admitted: seq<real>, held: seq<real>, clock: real, now: real)
    requires Tracks(limit, window, admitted, held, clock) && clock <= now
    ensures Tracks(limit, window, admitted, held, now)
  {
  }

  lemma AdmitKeepsTracks(limit: nat, window: real, admitted: seq<real>, kept: seq<real>, now: real)
    requires Tracks(limit, window, admitted, kept, now) && |kept| < limit
    ensures Tracks(limit, window, admitted + [now], kept + [now], now)
  {
    var more := admitted + [now];
    forall i, j | 0 <= i && j == i + limit && j < |more| ensures more[j] - more[i] > window {
      if j == |admitted| {
        assert i < |admitted| - |kept|;
      }
    }
  }

  ghost function Clock(calls: seq<Call>): real
    requires calls != []
  {
    calls[|calls| - 1].now
  }

  lemma OneMoreCall(limit: nat, window: real, calls: seq<Call>, call: Call, key: string)
    ensures var verdict := Judge(limit, window, Run(limit, window, calls), call.key, call.now);
            && Run(limit, window, calls + [call]) == verdict.events
            && Admissions(limit, window, calls + [call], key)
               == Admissions(limit, window, calls, key)
                  + if call.key == key && verdict.allowed then [call.now] else []
  {
    var more := calls + [call];
    assert more[..|more| - 1] == calls;
  }

  /** The table entry and the admissions of one key after one more call. */
  lemma CallKeepsTracks(limit: nat, window: real, calls: seq<Call>, call: Call, key: string, clock: real)
    requires limit > 0 && clock <= call.now
    requires Tracks(limit, window, Admissions(limit, window, calls, key), EventsOf(Run(limit, window, calls), key), clock)
    ensures Tracks(limit, window, Admissions(limit, window, calls + [call], key),
                   EventsOf(Run(limit, window, calls + [call]), key), call.now)
  {
    hide Tracks, Stale, Run, Admissions;
    OneMoreCall(limit, window, calls, call, key);
    var admitted := Admissions(limit, window, calls, key);
    var held := EventsOf(Run(limit, window, calls), key);
    if call.key != key {
      LaterClockKeepsTracks(limit, window, admitted, held, clock, call.now);
      assert admitted + [] == admitted;
    } else {
      PurgeKeepsTracks(limit, window, admitted, held, clock, call.now);
      var kept := held[Stale(held, call.now - window)..];
      if |kept| < limit {
        AdmitKeepsTracks(limit, window, admitted, kept, call.now);
      } else {
        assert admitted + [] == admitted;
      }
    }
  }

  lemma {:induction false} RunTracks(limit: nat, window: real, calls: seq<Call>, key: string)
    requires limit > 0 && ClockOk(calls) && calls != []
    ensures Tracks(limit, window, Admissions(limit, window, calls, key),
                   EventsOf(Run(limit, window, calls), key), Clock(calls))
    decreases |calls|
  {
    var k := |calls| - 1;
    var before, call := calls[..k], calls[k];
    assert before + [call] == calls;
    if k == 0 {
      assert before == [];
      NothingTracked(limit, window, call.now);
      hide Tracks;
      CallKeepsTracks(limit, window, before, call, key, call.now);
    } else {
      assert Clock(before) == calls[k - 1].now;
      hide Tracks, Run, Admissions, EventsOf;
      RunTracks(limit, window, before, key);
      CallKeepsTracks(limit, window, before, call, key, Clock(before));
    }
  }

  /** However calls for other keys are interleaved, a call is refused exactly when the closed
      window ending at it already holds `limit` admissions of its own key. */
  lemma RefusedExactlyWhenFull(limit: nat, window: real, calls: seq<Call>, i: nat)
    requires limit > 0 && ClockOk(calls) && i < |calls|
    ensures var admitted := Admissions(limit, window, calls[..i], calls[i].key);
            var inWindow := CountIn(admitted, calls[i].now - window, calls[i].now);
            inWindow <= limit && (!Allowed(limit, window, calls, i) <==> inWindow == limit)
  {
    hide CountIn, Run, Admissions, Judge;
    assert ClockOk(calls[..i]) && (i > 0 ==> Clock(calls[..i]) == calls[i - 1].now <= calls[i].now);
    CallIsJudged(limit, window, calls[..i], calls[i].key, calls[i].now);
  }

  lemma CallIsJudged(limit: nat, window: real, before: seq<Call>, key: string, now: real)
    requires limit > 0 && ClockOk(before) && (before != [] ==> Clock(before) <= now)
    ensures var inWindow := CountIn(Admissions(limit, window, before, key), now - window, now);
            && inWindow <= limit
            && (!Judge(limit, window, Run(limit, window, before), key, now).allowed <==> inWindow == limit)
  {
    hide Tracks, CountIn, Run, Admissions, Judge, EventsOf, ClockOk;
    var admitted := Admissions(limit, window, before, key);
    if before == [] {
      EmptyRunTracks(limit, window, key, now);
      FullWindowRefuses(limit, window, Run(limit, window, before), key, admitted, now, now);
    } else {
      RunTracks(limit, window, before, key);
      FullWindowRefuses(limit, window, Run(limit, window, before), key, admitted, Clock(before), now);
    }
  }

  lemma EmptyRunTracks(limit: nat, window: real, key: string, clock: real)
    ensures Tracks(limit, window, Admissions(limit, window, [], key), EventsOf(Run(limit, window, []), key), clock)
  {
  }

  lemma FullWindowRefuses(limit: nat, window: real, events: map<string, seq<real>>, key: string,
                          admitted: seq<real>, clock: real, now: real)
    requires limit > 0 && clock <= now && Tracks(limit, window, admitted, EventsOf(events, key), clock)
    ensures var inWindow := CountIn(admitted, now - window, now);
            inWindow <= limit && (!Judge(limit, window, events, key, now).allowed <==> inWindow == limit)
  {
    hide Tracks, CountIn;
    var held := EventsOf(events, key);
    var kept := held[Stale(held, now - window)..];
    PurgeKeepsTracks(limit, window, admitted, held, clock, now);
    HeldIsTheWindow(limit, window, admitted, kept, now);
    TracksHoldsFew(limit, window, admitted, kept, now);
  }

  /** Spacing is what bounds every window, wherever it starts. */
  lemma {:induction false} SpacedFitsEveryWindow(limit: nat, window: real, times: seq<real>, start: real)
    requires limit > 0 && Ascending(times) && Spaced(limit, window, times)
    ensures CountIn(times, start, start + window) <= limit
  {
    hide CountIn;
    var first := Stale(times, start);
    var end := if first + limit < |times| then first + limit else |times|;
    assert times == times[..first] + times[first..end] + times[end..];
    CountInSplits(times[..first] + times[first..end], times[end..], start, start + window);
    CountInSplits(times[..first], times[first..end], start, start + window);
    CountInNone(times[..first], start, start + window);
    forall i | 0 <= i < |times[end..]| ensures times[end..][i] > start + window {
      assert times[end..][i] == times[end + i];
      assert end == first + limit && times[end] - times[first] > window;
    }
    CountInNone(times[end..], start, start + window);
  }

  /** Over a whole run, every closed interval of the window's length holds at most `limit` admissions of a key. */
  lemma EveryWindowIsBounded(limit: nat, window: real, calls: seq<Call>, key: string, start: real)
    requires limit > 0 && ClockOk(calls)
    ensures CountIn(Admissions(limit, window, calls, key), start, start + window) <= limit
  {
    if calls != [] {
      RunTracks(limit, window, calls, key);
      SpacedFitsEveryWindow(limit, window, Admissions(limit, window, calls, key), start);
    }
  }

  /** A limit of zero turns the limiter off: nothing is refused and nothing is recorded. */
  lemma {:induction false} ZeroLimitNeverRefuses(window: real, calls: seq<Call>, i: nat)
    requires i < |calls|
    ensures Allowed(0, window, calls, i) && Run(0, window, calls) == map[]
    decreases |calls|
  {
    var k := |calls| - 1;
    if k > 0 {
      ZeroLimitNeverRefuses(window, calls[..k], 0);
    }
  }

  function CallsFor(calls: seq<Call>, key: string): seq<Call>
    decreases |calls|
  {
    if calls == [] then []
    else
      var k := |calls| - 1;
      var before := CallsFor(calls[..k], key);
      if calls[k].key == key then before + [calls[k]] else before
  }

  lemma VerdictIsLocal(limit: nat, window: real, a: map<string, seq<real>>, b: map<string, seq<real>>,
                       call: Call, key: string)
    requires EventsOf(a, key) == EventsOf(b, key)
    ensures var va := Judge(limit, window, a, call.key, call.now);
            var vb := Judge(limit, window, b, call.key, call.now);
            && (call.key == key ==> va.allowed == vb.allowed && EventsOf(va.events, key) == EventsOf(vb.events, key))
            && (call.key != key ==> EventsOf(va.events, key) == EventsOf(a, key))
  {
  }

  ghost predicate Agree(limit: nat, window: real, some: seq<Call>, others: seq<Call>, key: string) {
    && Admissions(limit, window, some, key) == Admissions(limit, window, others, key)
    && EventsOf(Run(limit, window, some), key) == EventsOf(Run(limit, window, others), key)
  }

  lemma AgreeOnOwnCall(limit: nat, window: real, some: seq<Call>, others: seq<Call>, call: Call)
    requires Agree(limit, window, some, others, call.key)
    ensures Agree(limit, window, some + [call], others + [call], call.key)
  {
    hide Run, Admissions, Judge, EventsOf;
    OneMoreCall(limit, window, some, call, call.key);
    OneMoreCall(limit, window, others, call, call.key);
    VerdictIsLocal(limit, window, Run(limit, window, some), Run(limit, window, others), call, call.key);
  }

  lemma AgreeOnOtherCall(limit: nat, window: real, some: seq<Call>, others: seq<Call>, call: Call, key: string)
    requires Agree(limit, window, some, others, key) && call.key != key
    ensures Agree(limit, window, some + [call], others, key)
  {
    hide Run, Admissions, Judge, EventsOf;
    OneMoreCall(limit, window, some, call, key);
    VerdictIsLocal(limit, window, Run(limit, window, some), Run(limit, window, some), call, key);
  }

  /** The limiter treats each key as if the calls for all other keys had never been made. */
  lemma {:induction false} KeysDoNotInterfere(limit: nat, window: real, calls: seq<Call>, key: string)
    ensures Agree(limit, window, calls, CallsFor(calls, key), key)
    decreases |calls|
  {
    hide Run, Admissions, EventsOf;
    if calls != [] {
      var k := |calls| - 1;
      var before, call := calls[..k], calls[k];
      KeysDoNotInterfere(limit, window, before, key);
      assert calls == before + [call];
      if call.key == key {
        AgreeOnOwnCall(limit, window, before, CallsFor(before, key), call);
      } else {
        AgreeOnOtherCall(limit, window, before, CallsFor(before, key), call, key);
      }
    }
  }
}
