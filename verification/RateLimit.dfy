/** The rate limit trigger: a pruned queue of timestamps against the full call history. */
module RateLimit {
  import opened Wrappers

  /** Times are nanoseconds since the zero time; a duration never exceeds MAX_DURATION, so
      any clock reading of our era lies further than that from the zero time. */
  const ZERO_TIME := 0
  const MAX_DURATION := 0x7fff_ffff_ffff_ffff

  datatype Limiter = Limiter(maxAllowed: nat, period: int, queue: Option<seq<int>>)

  function Zeros(n: nat): (z: seq<int>)
    ensures |z| == n && forall i :: 0 <= i < n ==> z[i] == ZERO_TIME
  {
    seq(n, _ => ZERO_TIME)
  }

  function Prune(q: seq<int>, now: int, period: int): seq<int> {
    if q != [] && now > q[0] + period then Prune(q[1..], now, period) else q
  }

  datatype Admission = Admission(limiter: Limiter, admitted: bool)

  /** One request: prune and check, except on the very first one, which pads the queue with
      zero times and is let through unchecked. */
  function Admit(l: Limiter, now: int): Admission {
    match l.queue
    case None => Admission(l.(queue := Some(Zeros(l.maxAllowed) + [now])), true)
    case Some(q) =>
      var kept := Prune(q, now, l.period);
      if |kept| >= l.maxAllowed then Admission(l.(queue := Some(kept)), false)
      else Admission(l.(queue := Some(kept + [now])), true)
  }

  // ---------- the history it stands for ----------

  ghost predicate Sorted(s: seq<int>) {
    forall i, j :: 0 <= i < j < |s| ==> s[i] <= s[j]
  }

  /** How many of these calls were made no longer than a period ago. */
  function Recent(calls: seq<int>, now: int, period: int): nat {
    if calls == [] then 0
    else Recent(calls[1..], now, period) + if now - calls[0] <= period then 1 else 0
  }

  /** The queue holds the guarded calls made so far, after some zero times; only entries that
      are out of date have been dropped. */
  ghost predicate Tracks(l: Limiter, calls: seq<int>, now: int) {
    && l.period <= MAX_DURATION
    && Sorted(calls) && (forall i :: 0 <= i < |calls| ==> MAX_DURATION < calls[i] <= now)
    && (l.queue.None? <==> calls == [])
    && (l.queue.Some? ==>
          var all := Zeros(l.maxAllowed) + calls;
          var q := l.queue.value;
          && |q| <= |all|
          && q == all[|all| - |q|..]
          && forall i :: 0 <= i < |all| - |q| ==> all[i] + l.period < now)
  }

  lemma {:induction false} PruneDropsPrefix(q: seq<int>, now: int, period: int) returns (k: nat)
    ensures k <= |q| && Prune(q, now, period) == q[k..]
    ensures forall i :: 0 <= i < k ==> q[i] + period < now
    ensures k < |q| ==> now - q[k] <= period
    decreases |q|
  {
    if q != [] && now > q[0] + period {
      var m := PruneDropsPrefix(q[1..], now, period);
      k := m + 1;
      assert q[1..][m..] == q[k..];
      forall i | 0 <= i < k
        ensures q[i] + period < now
      {
        if i > 0 { assert q[i] == q[1..][i - 1]; }
      }
    } else {
      k := 0;
    }
  }

  lemma {:induction false} RecentAppend(a: seq<int>, b: seq<int>, now: int, period: int)
    ensures Recent(a + b, now, period) == Recent(a, now, period) + Recent(b, now, period)
    decreases |a|
  {
    if a == [] {
      assert a + b == b;
    } else {
      assert (a + b)[1..] == a[1..] + b;
      RecentAppend(a[1..], b, now, period);
    }
  }

  lemma {:induction false} NoneRecent(s: seq<int>, now: int, period: int)
    requires forall i :: 0 <= i < |s| ==> s[i] + period < now
    ensures Recent(s, now, period) == 0
    decreases |s|
  {
    if s != [] {
      NoneRecent(s[1..], now, period);
    }
  }

  lemma {:induction false} AllRecent(s: seq<int>, now: int, period: int)
    requires forall i :: 0 <= i < |s| ==> now - s[i] <= period
    ensures Recent(s, now, period) == |s|
    decreases |s|
  {
    if s != [] {
      AllRecent(s[1..], now, period);
    }
  }

  lemma RecentSplit(calls: seq<int>, c: nat, now: int, period: int)
    requires c <= |calls|
    requires forall i :: 0 <= i < c ==> calls[i] + period < now
    requires forall i :: c <= i < |calls| ==> now - calls[i] <= period
    ensures Recent(calls, now, period) == |calls| - c
  {
    assert calls == calls[..c] + calls[c..];
    RecentAppend(calls[..c], calls[c..], now, period);
    NoneRecent(calls[..c], now, period);
    AllRecent(calls[c..], now, period);
  }

  /** Dropping out-of-date entries from the front of zeros and history. */
  lemma DroppedPrefix(zeros: seq<int>, calls: seq<int>, q: seq<int>, now: int, period: int) returns (c: nat)
    requires Sorted(calls) && period <= MAX_DURATION < now
    requires forall i :: 0 <= i < |zeros| ==> zeros[i] == ZERO_TIME
    requires |q| <= |zeros| + |calls| && q == (zeros + calls)[|zeros| + |calls| - |q|..]
    requires forall i :: 0 <= i < |zeros| + |calls| - |q| ==> (zeros + calls)[i] + period < now
    ensures c <= |calls| && Prune(q, now, period) == calls[c..]
    ensures forall i :: 0 <= i < c ==> calls[i] + period < now
    ensures c < |calls| ==> now - calls[c] <= period
  {
    var all := zeros + calls;
    var d := |all| - |q|;
    var k := PruneDropsPrefix(q, now, period);
    if k < |q| {
      assert q[k] == all[d + k];
    }
    assert d + k >= |zeros|;
    c := d + k - |zeros|;
    assert q[k..] == calls[c..];
    forall i | 0 <= i < c
      ensures calls[i] + period < now
    {
      var j := |zeros| + i;
      assert all[j] == calls[i];
      if j >= d {
        assert all[j] == q[j - d];
      }
    }
  }

  /** What is left after pruning is exactly what is recent. */
  lemma PrunedAreTheRecent(l: Limiter, calls: seq<int>, last: int, now: int) returns (kept: seq<int>)
    requires Tracks(l, calls, last) && last <= now && MAX_DURATION < now && l.queue.Some?
    ensures kept == Prune(l.queue.value, now, l.period)
    ensures |kept| == Recent(calls, now, l.period)
    ensures |kept| <= |calls|
    ensures kept == calls[|calls| - |kept|..]
    ensures forall i :: 0 <= i < |calls| - |kept| ==> calls[i] + l.period < now
  {
    var c := DroppedPrefix(Zeros(l.maxAllowed), calls, l.queue.value, now, l.period);
    kept := Prune(l.queue.value, now, l.period);
    RecentSplit(calls, c, now, l.period);
  }

  /** The queue and the history it keeps part of, in terms of the part kept. */
  lemma SuffixTracks(l: Limiter, calls: seq<int>, now: int, c: nat)
    requires l.period <= MAX_DURATION && MAX_DURATION < now
    requires Sorted(calls) && (forall i :: 0 <= i < |calls| ==> MAX_DURATION < calls[i] <= now)
    requires calls != [] && c <= |calls| && l.queue == Some(calls[c..])
    requires forall i :: 0 <= i < c ==> calls[i] + l.period < now
    ensures Tracks(l, calls, now)
  {}

  lemma FirstTracks(l: Limiter, now: int)
    requires l.period <= MAX_DURATION && MAX_DURATION < now
    requires l.queue == Some(Zeros(l.maxAllowed) + [now])
    ensures Tracks(l, [now], now)
  {}

  /** The pruned queue decides like the full history: after the first call, a request is
      refused exactly when at least maxAllowed guarded calls lie within the period. */
  lemma QueueRefinesHistory(l: Limiter, calls: seq<int>, last: int, now: int)
    requires Tracks(l, calls, last) && last <= now && MAX_DURATION < now
    ensures var a := Admit(l, now);
      && (a.admitted <==> calls == [] || Recent(calls, now, l.period) < l.maxAllowed)
      && Tracks(a.limiter, if a.admitted then calls + [now] else calls, now)
      && a.limiter.maxAllowed == l.maxAllowed && a.limiter.period == l.period
  {
    var a := Admit(l, now);
    if l.queue.Some? {
      var kept := PrunedAreTheRecent(l, calls, last, now);
      var c := |calls| - |kept|;
      if a.admitted {
        assert (calls + [now])[c..] == kept + [now];
        SuffixTracks(a.limiter, calls + [now], now, c);
      } else {
        SuffixTracks(a.limiter, calls, now, c);
      }
    } else {
      assert calls + [now] == [now];
      FirstTracks(a.limiter, now);
    }
  }

  // ---------- the sliding window bound ----------

  /** At least one call is always let through. */
  function Limit(maxAllowed: nat): nat {
    if maxAllowed == 0 then 1 else maxAllowed
  }

  function Within(calls: seq<int>, from: int, to: int): nat {
    if calls == [] then 0
    else Within(calls[1..], from, to) + if from <= calls[0] <= to then 1 else 0
  }

  ghost predicate WindowOk(calls: seq<int>, limit: nat, period: int, from: int) {
    Within(calls, from, from + period) <= limit
  }

  /** No closed window one period long holds more calls than the limit. */
  ghost predicate Windowed(calls: seq<int>, limit: nat, period: int) {
    forall from :: WindowOk(calls, limit, period, from)
  }

  /** Any call and the one `k` places earlier are more than a period apart. */
  ghost predicate Spaced(calls: seq<int>, k: nat, period: int) {
    forall i :: k <= i < |calls| ==> calls[i] - calls[i - k] > period
  }

  lemma {:induction false} RecentAtLeast(calls: seq<int>, k: nat, now: int, period: int)
    requires Sorted(calls) && k <= |calls|
    requires k > 0 ==> now - calls[|calls| - k] <= period
    ensures Recent(calls, now, period) >= k
  {
    var a, b := calls[..|calls| - k], calls[|calls| - k..];
    assert calls == a + b;
    RecentAppend(a, b, now, period);
    forall i | 0 <= i < |b|
      ensures now - b[i] <= period
    {
      assert b[i] == calls[|calls| - k + i];
    }
    AllRecent(b, now, period);
  }

  lemma AdmittedStaysSpaced(l: Limiter, calls: seq<int>, last: int, now: int)
    requires Tracks(l, calls, last) && last <= now && MAX_DURATION < now
    requires Spaced(calls, Limit(l.maxAllowed), l.period) && Admit(l, now).admitted
    ensures Spaced(calls + [now], Limit(l.maxAllowed), l.period)
  {
    QueueRefinesHistory(l, calls, last, now);
    var k := Limit(l.maxAllowed);
    if |calls| >= k && now - calls[|calls| - k] <= l.period {
      RecentAtLeast(calls, k, now, l.period);
    }
  }

  lemma {:induction false} WithinAppend(a: seq<int>, b: seq<int>, from: int, to: int)
    ensures Within(a + b, from, to) == Within(a, from, to) + Within(b, from, to)
    decreases |a|
  {
    if a == [] {
      assert a + b == b;
    } else {
      assert (a + b)[1..] == a[1..] + b;
      WithinAppend(a[1..], b, from, to);
    }
  }

  lemma {:induction false} WithinAtMostLength(s: seq<int>, from: int, to: int)
    ensures Within(s, from, to) <= |s|
    decreases |s|
  {
    if s != [] {
      WithinAtMostLength(s[1..], from, to);
    }
  }

  lemma {:induction false} NoneWithin(s: seq<int>, from: int, to: int)
    requires forall i :: 0 <= i < |s| ==> s[i] < from
    ensures Within(s, from, to) == 0
    decreases |s|
  {
    if s != [] {
      NoneWithin(s[1..], from, to);
    }
  }

  /** If the last call lies in the window, everything k or more places before it does not. */
  lemma LastInWindow(calls: seq<int>, k: nat, period: int, from: int)
    requires Sorted(calls) && Spaced(calls, k, period) && 0 < k < |calls|
    requires calls[|calls| - 1] <= from + period
    ensures Within(calls, from, from + period) <= k
  {
    var early, late := calls[..|calls| - k], calls[|calls| - k..];
    assert calls == early + late && |late| == k;
    EarlyCallsAreOutside(calls, k, period, from);
    OnlyLateCallsCount(early, late, from, from + period);
  }

  lemma OnlyLateCallsCount(early: seq<int>, late: seq<int>, from: int, to: int)
    requires forall i :: 0 <= i < |early| ==> early[i] < from
    ensures Within(early + late, from, to) <= |late|
  {
    WithinAppend(early, late, from, to);
    WithinAtMostLength(late, from, to);
    NoneWithin(early, from, to);
  }

  lemma EarlyCallsAreOutside(calls: seq<int>, k: nat, period: int, from: int)
    requires Sorted(calls) && Spaced(calls, k, period) && 0 < k < |calls|
    requires calls[|calls| - 1] <= from + period
    ensures var early := calls[..|calls| - k]; forall i :: 0 <= i < |early| ==> early[i] < from
  {
    var n := |calls| - 1;
    assert calls[n] - calls[n - k] > period;
    forall i | 0 <= i < n - k + 1
      ensures calls[i] < from
    {
      assert calls[i] <= calls[n - k];
    }
  }

  /** Spaced calls never exceed the limit in any closed window of one period. */
  lemma {:induction false} SpacedMeansBounded(calls: seq<int>, k: nat, period: int, from: int)
    requires Sorted(calls) && Spaced(calls, k, period) && k > 0
    ensures Within(calls, from, from + period) <= k
    decreases |calls|
  {
    if |calls| <= k {
      WithinAtMostLength(calls, from, from + period);
    } else if calls[|calls| - 1] <= from + period {
      LastInWindow(calls, k, period, from);
    } else {
      var front, t := calls[..|calls| - 1], calls[|calls| - 1];
      assert calls == front + [t];
      WithinAppend(front, [t], from, from + period);
      SpacedMeansBounded(front, k, period, from);
    }
  }

  // ---------- runs ----------

  datatype Trace = Trace(limiter: Limiter, guarded: seq<int>, decisions: seq<bool>)

  /** Requests at these times, starting from a new limiter. */
  function Drive(maxAllowed: nat, period: int, times: seq<int>): Trace {
    if times == [] then Trace(Limiter(maxAllowed, period, None), [], [])
    else
      var n := |times| - 1;
      var before := Drive(maxAllowed, period, times[..n]);
      var a := Admit(before.limiter, times[n]);
      Trace(a.limiter, if a.admitted then before.guarded + [times[n]] else before.guarded,
            before.decisions + [a.admitted])
  }

  /** A monotone clock of our era. */
  ghost predicate ClockReadings(times: seq<int>) {
    Sorted(times) && forall i :: 0 <= i < |times| ==> MAX_DURATION < times[i]
  }

  lemma {:induction false} DriveTracks(maxAllowed: nat, period: int, times: seq<int>)
    requires ClockReadings(times) && period <= MAX_DURATION
    ensures var r := Drive(maxAllowed, period, times);
      && Tracks(r.limiter, r.guarded, if times == [] then MAX_DURATION + 1 else times[|times| - 1])
      && r.limiter.maxAllowed == maxAllowed && r.limiter.period == period
      && Spaced(r.guarded, Limit(maxAllowed), period)
      && |r.decisions| == |times|
    decreases |times|
  {
    if times != [] {
      var n := |times| - 1;
      assert ClockReadings(times[..n]);
      DriveTracks(maxAllowed, period, times[..n]);
      var before := Drive(maxAllowed, period, times[..n]);
      var last := if n == 0 then MAX_DURATION + 1 else times[n - 1];
      QueueRefinesHistory(before.limiter, before.guarded, last, times[n]);
      if Admit(before.limiter, times[n]).admitted {
        AdmittedStaysSpaced(before.limiter, before.guarded, last, times[n]);
      }
    }
  }

  ghost predicate DecidedByHistory(maxAllowed: nat, period: int, times: seq<int>, i: nat, decision: bool)
    requires i < |times|
  {
    var past := Drive(maxAllowed, period, times[..i]).guarded;
    decision <==> past == [] || Recent(past, times[i], period) < maxAllowed
  }

  lemma LastDecision(maxAllowed: nat, period: int, times: seq<int>)
    requires ClockReadings(times) && period <= MAX_DURATION && times != []
    ensures var n := |times| - 1;
      DecidedByHistory(maxAllowed, period, times, n,
                       Admit(Drive(maxAllowed, period, times[..n]).limiter, times[n]).admitted)
  {
    var n := |times| - 1;
    assert ClockReadings(times[..n]);
    DriveTracks(maxAllowed, period, times[..n]);
    var before := Drive(maxAllowed, period, times[..n]);
    QueueRefinesHistory(before.limiter, before.guarded,
                        if n == 0 then MAX_DURATION + 1 else times[n - 1], times[n]);
  }

  /** In any run of requests every decision is the one the full history of guarded calls
      calls for: refused iff not the first and maxAllowed of them lie within the period. */
  lemma {:induction false} DecisionsFollowHistory(maxAllowed: nat, period: int, times: seq<int>)
    requires ClockReadings(times) && period <= MAX_DURATION
    ensures var decisions := Drive(maxAllowed, period, times).decisions;
      && |decisions| == |times|
      && forall i :: 0 <= i < |times| ==> DecidedByHistory(maxAllowed, period, times, i, decisions[i])
    decreases |times|
  {
    if times != [] {
      var n := |times| - 1;
      var front := times[..n];
      assert ClockReadings(front);
      DecisionsFollowHistory(maxAllowed, period, front);
      LastDecision(maxAllowed, period, times);
      var decisions := Drive(maxAllowed, period, times).decisions;
      forall i | 0 <= i < n
        ensures DecidedByHistory(maxAllowed, period, times, i, decisions[i])
      {
        assert DecidedByHistory(maxAllowed, period, front, i, decisions[i]);
        assert front[..i] == times[..i];
      }
    }
  }

  lemma SpacedMeansWindowed(calls: seq<int>, k: nat, period: int)
    requires Sorted(calls) && Spaced(calls, k, period) && k > 0
    ensures Windowed(calls, k, period)
  {
    forall from
      ensures WindowOk(calls, k, period, from)
    {
      SpacedMeansBounded(calls, k, period, from);
    }
  }

  /** In any run, every closed window one period long holds at most the limit of guarded
      calls, whatever the period's sign. */
  lemma WindowIsBounded(maxAllowed: nat, period: int, times: seq<int>)
    requires ClockReadings(times) && period <= MAX_DURATION
    ensures Windowed(Drive(maxAllowed, period, times).guarded, Limit(maxAllowed), period)
  {
    DriveTracks(maxAllowed, period, times);
    SpacedMeansWindowed(Drive(maxAllowed, period, times).guarded, Limit(maxAllowed), period);
  }

  /** A limiter told to allow nothing lets exactly its first request through, ever. */
  lemma {:induction false} ZeroAllowsOneEver(period: int, times: seq<int>)
    ensures var r := Drive(0, period, times);
      && r.guarded == (if times == [] then [] else times[..1])
      && (r.limiter.queue.None? <==> times == [])
      && r.limiter.maxAllowed == 0
    decreases |times|
  {
    if times != [] {
      var n := |times| - 1;
      ZeroAllowsOneEver(period, times[..n]);
      if n > 0 {
        assert times[..n][..1] == times[..1];
      } else {
        assert times[..n] == [];
        assert [] + [times[0]] == times[..1];
      }
    }
  }

  lemma {:induction false} NoneWithinBackwards(s: seq<int>, from: int, to: int)
    requires to < from
    ensures Within(s, from, to) == 0
    decreases |s|
  {
    if s != [] {
      NoneWithinBackwards(s[1..], from, to);
    }
  }

  /** The documented bound of maxAllowed itself holds on all runs exactly when maxAllowed is
      not zero or the period is negative (so that its windows are empty): a limiter told to
      allow nothing still lets its first request through. */
  lemma DocumentedBoundIff(maxAllowed: nat, period: int)
    requires period <= MAX_DURATION
    ensures (forall times :: ClockReadings(times) ==>
               Windowed(Drive(maxAllowed, period, times).guarded, maxAllowed, period))
            <==> maxAllowed >= 1 || period < 0
  {
    if maxAllowed >= 1 {
      forall times | ClockReadings(times)
        ensures Windowed(Drive(maxAllowed, period, times).guarded, maxAllowed, period)
      {
        WindowIsBounded(maxAllowed, period, times);
      }
    } else if period < 0 {
      forall times | ClockReadings(times)
        ensures Windowed(Drive(maxAllowed, period, times).guarded, maxAllowed, period)
      {
        EmptyWindows(Drive(maxAllowed, period, times).guarded, maxAllowed, period);
      }
    } else {
      var now := MAX_DURATION + 1;
      assert ClockReadings([now]);
      ZeroAllowsOneEver(period, [now]);
      assert Within([now], now, now + period) == 1;
      assert !WindowOk(Drive(0, period, [now]).guarded, 0, period, now);
    }
  }

  lemma EmptyWindows(calls: seq<int>, limit: nat, period: int)
    requires period < 0
    ensures Windowed(calls, limit, period)
  {
    forall from
      ensures WindowOk(calls, limit, period, from)
    {
      NoneWithinBackwards(calls, from, from + period);
    }
  }

  // ---------- the trigger as an object ----------

  datatype Result = RateLimitExceeded | Guarded(ok: bool)

  class RateLimitTrigger {
    const maxAllowed: nat
    const period: int
    var previousTriggers: Option<seq<int>>
    ghost var calls: seq<int>
    ghost var last: int

    ghost function Model(): Limiter
      reads this
    {
      Limiter(maxAllowed, period, previousTriggers)
    }

    ghost predicate Valid()
      reads this
    {
      && MAX_DURATION < last
      && Tracks(Model(), calls, last)
      && Spaced(calls, Limit(maxAllowed), period)
    }

    constructor (maxAllowed: nat, period: int)
      requires period <= MAX_DURATION
      ensures Valid() && calls == [] && last == MAX_DURATION + 1
      ensures this.maxAllowed == maxAllowed && this.period == period
    {
      this.maxAllowed := maxAllowed;
      this.period := period;
      previousTriggers := None;
      calls := [];
      last := MAX_DURATION + 1;
    }

    /** `guardedOk` is what the guarded trigger answers if it is called. */
    method Trigger(now: int, guardedOk: bool) returns (r: Result)
      requires Valid() && last <= now
      modifies this
      ensures Valid() && last == now
      ensures r.Guarded? <==> old(calls) == [] || Recent(old(calls), now, period) < maxAllowed
      ensures r.Guarded? ==> r.ok == guardedOk
      ensures calls == if r.Guarded? then old(calls) + [now] else old(calls)
      ensures Model() == Admit(old(Model()), now).limiter
      ensures Windowed(calls, Limit(maxAllowed), period)
    {
      AdmissionIsSound(now);
      var admitted := Decide(now);
      last := now;
      if admitted {
        calls := calls + [now];
        r := Guarded(guardedOk);
      } else {
        r := RateLimitExceeded;
      }
    }

    /** Prune the queue and check it, or pad it on the first call; note an admitted call. */
    method Decide(now: int) returns (admitted: bool)
      modifies this`previousTriggers
      ensures Admission(Model(), admitted) == Admit(old(Model()), now)
    {
      if previousTriggers.Some? {
        var q := previousTriggers.value;
        while |q| > 0 && now > q[0] + period
          invariant Prune(q, now, period) == Prune(previousTriggers.value, now, period)
          decreases |q|
        {
          q := q[1..];
        }
        previousTriggers := Some(q);
        if |q| >= maxAllowed {
          return false;
        }
      } else {
        previousTriggers := Some(Zeros(maxAllowed));
      }
      previousTriggers := Some(previousTriggers.value + [now]);
      admitted := true;
    }

    /** Whatever is decided next, the new state is valid and the windows are bounded. */
    lemma AdmissionIsSound(now: int)
      requires Valid() && last <= now
      ensures var a := Admit(Model(), now);
        var calls' := if a.admitted then calls + [now] else calls;
        && (a.admitted <==> calls == [] || Recent(calls, now, period) < maxAllowed)
        && Tracks(a.limiter, calls', now)
        && Spaced(calls', Limit(maxAllowed), period)
        && Windowed(calls', Limit(maxAllowed), period)
    {
      QueueRefinesHistory(Model(), calls, last, now);
      if Admit(Model(), now).admitted {
        AdmittedStaysSpaced(Model(), calls, last, now);
        SpacedMeansWindowed(calls + [now], Limit(maxAllowed), period);
      } else {
        SpacedMeansWindowed(calls, Limit(maxAllowed), period);
      }
    }
  }
}
