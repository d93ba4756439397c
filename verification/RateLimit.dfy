/** The fixed-window rate limiter. Times are nanoseconds on the monotonic clock.
    Main results, over every trace with non-decreasing times: opportunistic sweeping is
    invisible, keys do not influence one another, and the number of requests allowed in any
    interval of k windows is at most (k + 1) * limit - 1. */
module RateLimit {
  import opened Types

  const NANOS: nat := 1_000_000_000
  const WINDOW: nat := 60_000_000_000

  type Instant = nat

  datatype Key = Jkt(jkt: string) | Ip(address: string)

  datatype Config = Config(perJkt: u32, perIp: u32)
  {
    /** Zero disables the dimension. */
    function Limit(key: Key): u32 {
      if key.Jkt? then perJkt else perIp
    }
  }

  datatype Decision = Allowed | Limited(retryAfterSeconds: nat)

  datatype Window = Window(count: nat, startedAt: Instant)

  type Windows = map<Key, Window>

  /** `Instant::duration_since` saturates at zero. */
  function Since(now: Instant, earlier: Instant): nat {
    if now >= earlier then now - earlier else 0
  }

  function Live(w: Option<Window>, now: Instant): Option<Window> {
    if w.Some? && Since(now, w.value.startedAt) < WINDOW then w else None
  }

  function Get(windows: Windows, key: Key): Option<Window> {
    if key in windows then Some(windows[key]) else None
  }

  function RetryAfter(w: Window, now: Instant): nat {
    var whole := (WINDOW - Min(Since(now, w.startedAt), WINDOW)) / NANOS;
    if whole >= 1 then whole else 1
  }

  /** Counting one request against a key's window. */
  function Counted(w: Option<Window>, limit: nat, now: Instant): (Window, Decision) {
    var current := if Live(w, now).Some? then w.value else Window(0, now);
    if current.count >= limit then (current, Limited(RetryAfter(current, now)))
    else (current.(count := current.count + 1), Allowed)
  }

  datatype Limiter = Limiter(windows: Windows, lastSweep: Instant, limitedTotal: nat)

  function Swept(windows: Windows, now: Instant): Windows {
    map key | key in windows && Since(now, windows[key].startedAt) < WINDOW :: windows[key]
  }

  function SweptIfDue(s: Limiter, now: Instant): Limiter {
    if Since(now, s.lastSweep) < WINDOW then s else s.(windows := Swept(s.windows, now), lastSweep := now)
  }

  function CountedIn(s: Limiter, key: Key, limit: nat, now: Instant): (Limiter, Decision) {
    var (w, decision) := Counted(Get(s.windows, key), limit, now);
    (s.(windows := s.windows[key := w], limitedTotal := s.limitedTotal + if decision.Limited? then 1 else 0), decision)
  }

  /** One check; `sweeping` is true in the limiter and false in the reference that never forgets. */
  function Checked(config: Config, s: Limiter, key: Key, now: Instant, sweeping: bool): (Limiter, Decision) {
    var limit := config.Limit(key);
    if limit == 0 then (s, Allowed)
    else CountedIn(if sweeping then SweptIfDue(s, now) else s, key, limit, now)
  }

  /** Keys with a live window: what the operator console counts. */
  function Tracked(windows: Windows, now: Instant): set<Key> {
    set key | key in windows && Since(now, windows[key].startedAt) < WINDOW
  }

  function JktKeys(keys: set<Key>): set<Key> {
    set key | key in keys && key.Jkt?
  }

  class RateLimiter {
    const config: Config
    var windows: Windows
    var lastSweep: Instant
    var limitedTotal: nat

    constructor (config: Config, now: Instant)
      ensures this.config == config && AsLimiter() == Limiter(map[], now, 0)
    {
      this.config := config;
      windows, lastSweep, limitedTotal := map[], now, 0;
    }

    function AsLimiter(): Limiter
      reads this
    {
      Limiter(windows, lastSweep, limitedTotal)
    }

    method Check(key: Key, now: Instant) returns (decision: Decision)
      modifies this
      ensures (AsLimiter(), decision) == Checked(config, old(AsLimiter()), key, now, true)
    {
      var limit := config.Limit(key);
      if limit == 0 {
        return Allowed;
      }
      SweepIfDue(now);
      var window := if key in windows then windows[key] else Window(0, now);
      if Since(now, window.startedAt) >= WINDOW {
        window := Window(0, now);
      }
      if window.count >= limit {
        var left := if Since(now, window.startedAt) <= WINDOW then WINDOW - Since(now, window.startedAt) else 0;
        limitedTotal := limitedTotal + 1;
        decision := Limited(if left / NANOS >= 1 then left / NANOS else 1);
      } else {
        window := window.(count := window.count + 1);
        decision := Allowed;
      }
      windows := windows[key := window];
    }

    method SweepIfDue(now: Instant)
      modifies this
      ensures AsLimiter() == SweptIfDue(old(AsLimiter()), now)
    {
      if Since(now, lastSweep) < WINDOW {
        return;
      }
      lastSweep := now;
      windows := map key | key in windows && Since(now, windows[key].startedAt) < WINDOW :: windows[key];
    }

    /** The configured budgets and the live windows per dimension; expired entries are skipped. */
    method Snapshot(now: Instant) returns (perJkt: u32, perIp: u32, jktCount: nat, ipCount: nat, limited: nat)
      ensures forall key :: config.Limit(key) == if key.Jkt? then perJkt else perIp
      ensures jktCount == |JktKeys(Tracked(windows, now))|
      ensures jktCount + ipCount == |Tracked(windows, now)|
      ensures limited == limitedTotal
    {
      perJkt, perIp := config.perJkt, config.perIp;
      jktCount, ipCount, limited := 0, 0, limitedTotal;
      var todo := windows.Keys;
      ghost var seen: set<Key> := {};
      while todo != {}
        invariant todo <= windows.Keys && seen == Tracked(windows, now) - todo
        invariant jktCount == |JktKeys(seen)| && jktCount + ipCount == |seen|
      {
        var key :| key in todo;
        todo := todo - {key};
        if Since(now, windows[key].startedAt) < WINDOW {
          JktGrows(seen, key);
          seen := seen + {key};
          if key.Jkt? {
            jktCount := jktCount + 1;
          } else {
            ipCount := ipCount + 1;
          }
        }
      }
      assert seen == Tracked(windows, now);
    }
  }

  lemma JktGrows(seen: set<Key>, key: Key)
    requires key !in seen
    ensures |seen + {key}| == |seen| + 1
    ensures |JktKeys(seen + {key})| == |JktKeys(seen)| + if key.Jkt? then 1 else 0
  {
    if key.Jkt? {
      assert JktKeys(seen + {key}) == JktKeys(seen) + {key};
    } else {
      assert JktKeys(seen + {key}) == JktKeys(seen);
    }
  }

  // ---- Traces ----

  datatype Request = Request(key: Key, at: Instant)

  predicate Ordered(trace: seq<Request>) {
    forall i, j :: 0 <= i < j < |trace| ==> trace[i].at <= trace[j].at
  }

  function Run(config: Config, start: Limiter, trace: seq<Request>, sweeping: bool): (Limiter, seq<Decision>) {
    if trace == [] then (start, []) else
    var (s, decisions) := Run(config, start, trace[..|trace| - 1], sweeping);
    var last := trace[|trace| - 1];
    var (t, decision) := Checked(config, s, last.key, last.at, sweeping);
    (t, decisions + [decision])
  }

  /** The same live windows from `now` on: indistinguishable by any later check. */
  ghost predicate SameLive(a: Windows, b: Windows, now: Instant) {
    forall key :: Live(Get(a, key), now) == Live(Get(b, key), now)
  }

  lemma SameLiveLater(a: Windows, b: Windows, now: Instant, later: Instant)
    requires SameLive(a, b, now) && now <= later
    ensures SameLive(a, b, later)
    ensures Tracked(a, later) == Tracked(b, later)
  {
    forall key ensures Live(Get(a, key), later) == Live(Get(b, key), later) {
      assert Live(Get(a, key), later) == Live(Live(Get(a, key), now), later);
      assert Live(Get(b, key), later) == Live(Live(Get(b, key), now), later);
    }
    forall key ensures key in Tracked(a, later) <==> key in Tracked(b, later) {
      assert key in Tracked(a, later) <==> Live(Get(a, key), later).Some?;
      assert key in Tracked(b, later) <==> Live(Get(b, key), later).Some?;
    }
  }

  lemma SweepKeepsLive(s: Limiter, now: Instant)
    ensures SameLive(SweptIfDue(s, now).windows, s.windows, now)
    ensures SweptIfDue(s, now).limitedTotal == s.limitedTotal
  {
  }

  lemma CheckSame(config: Config, a: Limiter, b: Limiter, key: Key, now: Instant)
    requires SameLive(a.windows, b.windows, now) && a.limitedTotal == b.limitedTotal
    ensures var (a', da) := Checked(config, a, key, now, true);
            var (b', db) := Checked(config, b, key, now, false);
            da == db && SameLive(a'.windows, b'.windows, now) && a'.limitedTotal == b'.limitedTotal
  {
    if config.Limit(key) > 0 {
      SweepKeepsLive(a, now);
      var a0 := SweptIfDue(a, now);
      assert Live(Get(a0.windows, key), now) == Live(Get(b.windows, key), now);
      var (a', da) := CountedIn(a0, key, config.Limit(key), now);
      var (b', db) := CountedIn(b, key, config.Limit(key), now);
      forall other ensures Live(Get(a'.windows, other), now) == Live(Get(b'.windows, other), now) {
        assert Live(Get(a0.windows, other), now) == Live(Get(b.windows, other), now);
      }
    }
  }

  /** Sweeping is invisible: the same decisions, the same tracked keys at any later time and
      the same refusal total as a limiter that never forgets a window. */
  lemma {:induction false} SweepTransparent(config: Config, start: Limiter, trace: seq<Request>, now: Instant)
    requires Ordered(trace) && (trace != [] ==> trace[|trace| - 1].at <= now)
    ensures var (s, decisions) := Run(config, start, trace, true);
            var (r, reference) := Run(config, start, trace, false);
            && decisions == reference && s.limitedTotal == r.limitedTotal
            && SameLive(s.windows, r.windows, now) && Tracked(s.windows, now) == Tracked(r.windows, now)
    decreases |trace|
  {
    if trace != [] {
      var init, last := trace[..|trace| - 1], trace[|trace| - 1];
      SweepTransparent(config, start, init, last.at);
      var s, r := Run(config, start, init, true).0, Run(config, start, init, false).0;
      CheckSame(config, s, r, last.key, last.at);
      SameLiveLater(Run(config, start, trace, true).0.windows, Run(config, start, trace, false).0.windows, last.at, now);
    }
  }

  // ---- One key alone ----

  /** The limiter of a single key: its window and decisions from its own request times. */
  function KeyRun(limit: nat, times: seq<Instant>): (Option<Window>, seq<Decision>) {
    if times == [] then (None, []) else
    var (w, decisions) := KeyRun(limit, times[..|times| - 1]);
    var (v, decision) := Counted(w, limit, times[|times| - 1]);
    (Some(v), decisions + [decision])
  }

  function TimesOf(trace: seq<Request>, key: Key): seq<Instant> {
    if trace == [] then [] else
    TimesOf(trace[..|trace| - 1], key) + if trace[|trace| - 1].key == key then [trace[|trace| - 1].at] else []
  }

  function DecisionsOf(trace: seq<Request>, decisions: seq<Decision>, key: Key): seq<Decision>
    requires |trace| == |decisions|
  {
    if trace == [] then [] else
    DecisionsOf(trace[..|trace| - 1], decisions[..|trace| - 1], key)
    + if trace[|trace| - 1].key == key then [decisions[|trace| - 1]] else []
  }

  lemma {:induction false} RunLength(config: Config, start: Limiter, trace: seq<Request>)
    ensures |Run(config, start, trace, true).1| == |trace|
    decreases |trace|
  {
    if trace != [] {
      RunLength(config, start, trace[..|trace| - 1]);
    }
  }

  /** A check on one key leaves every other key's live window alone. */
  lemma CheckIsLocal(config: Config, s: Limiter, key: Key, other: Key, now: Instant)
    requires key != other
    ensures Live(Get(Checked(config, s, key, now, true).0.windows, other), now) == Live(Get(s.windows, other), now)
  {
    SweepKeepsLive(s, now);
  }

  /** The check of a key depends on nothing but that key's live window. */
  lemma CheckIsOwn(config: Config, s: Limiter, key: Key, w: Option<Window>, now: Instant)
    requires config.Limit(key) > 0 && Live(Get(s.windows, key), now) == Live(w, now)
    ensures var (t, decision) := Checked(config, s, key, now, true);
            var (v, expected) := Counted(w, config.Limit(key), now);
            decision == expected && Get(t.windows, key) == Some(v)
  {
    SweepKeepsLive(s, now);
    assert Live(Get(SweptIfDue(s, now).windows, key), now) == Live(w, now);
  }

  lemma LiveLater(a: Option<Window>, b: Option<Window>, now: Instant, later: Instant)
    requires Live(a, now) == Live(b, now) && now <= later
    ensures Live(a, later) == Live(b, later)
  {
    assert Live(a, later) == Live(Live(a, now), later) && Live(b, later) == Live(Live(b, now), later);
  }

  /** Isolation: whatever other keys do, and whenever sweeps happen, a key's decisions are
      those of a limiter that saw only its own requests. */
  lemma {:induction false} KeysIsolated(config: Config, swept: Instant, trace: seq<Request>, key: Key, now: Instant)
    requires config.Limit(key) > 0 && Ordered(trace) && (trace != [] ==> trace[|trace| - 1].at <= now)
    ensures var (s, decisions) := Run(config, Limiter(map[], swept, 0), trace, true);
            var (w, own) := KeyRun(config.Limit(key), TimesOf(trace, key));
            && |decisions| == |trace| && DecisionsOf(trace, decisions, key) == own
            && Live(Get(s.windows, key), now) == Live(w, now)
    decreases |trace|
  {
    var start := Limiter(map[], swept, 0);
    RunLength(config, start, trace);
    if trace != [] {
      var init, last := trace[..|trace| - 1], trace[|trace| - 1];
      KeysIsolated(config, swept, init, key, last.at);
      var (s, decisions) := Run(config, start, init, true);
      var (w, own) := KeyRun(config.Limit(key), TimesOf(init, key));
      var (t, all) := Run(config, start, trace, true);
      assert all[..|trace| - 1] == decisions;
      if last.key == key {
        CheckIsOwn(config, s, key, w, last.at);
        assert TimesOf(trace, key)[..|TimesOf(trace, key)| - 1] == TimesOf(init, key);
      } else {
        CheckIsLocal(config, s, last.key, key, last.at);
        assert TimesOf(trace, key) == TimesOf(init, key);
        LiveLater(Get(t.windows, key), w, last.at, now);
      }
    }
  }

  // ---- The rate bound ----

  predicate OrderedTimes(times: seq<Instant>) {
    forall i, j :: 0 <= i < j < |times| ==> times[i] <= times[j]
  }

  /** Requests of one key allowed at times in [from, to). */
  function AllowedIn(limit: nat, times: seq<Instant>, from: Instant, to: Instant): nat {
    if times == [] then 0 else
    var init, last := times[..|times| - 1], times[|times| - 1];
    AllowedIn(limit, init, from, to)
    + if Counted(KeyRun(limit, init).0, limit, last).1.Allowed? && from <= last < to then 1 else 0
  }

  lemma MulMono(limit: nat, a: nat, b: nat)
    requires a <= b
    ensures limit * a <= limit * b
  {
  }

  /** Whole windows between `from` and `start`. */
  function Slots(start: Instant, from: Instant): nat
    requires from <= start
  {
    (start - from) / WINDOW
  }

  /** What the requests so far may add up to, given the current window. */
  ghost predicate Budget(limit: nat, w: Option<Window>, allowed: nat, from: Instant, to: Instant, k: nat) {
    && allowed <= limit * (k + 1) - 1
    && (w.None? ==> allowed == 0)
    && (w.Some? ==> 1 <= w.value.count <= limit)
    && (w.Some? && w.value.startedAt < from ==> allowed <= w.value.count - 1)
    && (w.Some? && from <= w.value.startedAt < to ==>
          allowed <= limit - 1 + limit * Slots(w.value.startedAt, from) + w.value.count)
  }

  lemma BudgetStep(limit: nat, w: Option<Window>, allowed: nat, at: Instant, from: Instant, to: Instant, k: nat)
    requires limit >= 1 && to == from + k * WINDOW && Budget(limit, w, allowed, from, to, k)
    requires w.Some? ==> w.value.startedAt <= at
    requires at < from ==> allowed == 0
    ensures var (v, decision) := Counted(w, limit, at);
            && Budget(limit, Some(v), allowed + if decision.Allowed? && from <= at < to then 1 else 0, from, to, k)
            && v.startedAt <= at
  {
    var (v, decision) := Counted(w, limit, at);
    if from <= v.startedAt < to {
      SlotsBelow(v.startedAt, from, k);
      MulMono(limit, Slots(v.startedAt, from) + 1, k);
      Distribute(limit, Slots(v.startedAt, from), k);
      if w.Some? && from <= w.value.startedAt && v.startedAt != w.value.startedAt {
        SlotsGrow(w.value.startedAt, v.startedAt, from);
        MulMono(limit, Slots(w.value.startedAt, from) + 1, Slots(v.startedAt, from));
        Distribute(limit, Slots(w.value.startedAt, from), k);
      }
    } else {
      Distribute(limit, 0, k);
    }
  }

  lemma Distribute(limit: nat, q: nat, k: nat)
    ensures limit * (q + 1) == limit * q + limit && limit * (k + 1) == limit * k + limit && limit * q >= 0
  {
  }

  lemma SlotsBelow(start: Instant, from: Instant, k: nat)
    requires from <= start < from + k * WINDOW
    ensures Slots(start, from) + 1 <= k
  {
  }

  lemma SlotsGrow(earlier: Instant, later: Instant, from: Instant)
    requires from <= earlier && earlier + WINDOW <= later
    ensures Slots(earlier, from) + 1 <= Slots(later, from)
  {
  }

  /** In any half-open interval of k windows a key is allowed at most (k + 1) * limit - 1
      requests. */
  lemma {:induction false} RateBound(limit: nat, times: seq<Instant>, from: Instant, k: nat)
    requires limit >= 1 && OrderedTimes(times)
    ensures Budget(limit, KeyRun(limit, times).0, AllowedIn(limit, times, from, from + k * WINDOW), from, from + k * WINDOW, k)
    ensures AllowedIn(limit, times, from, from + k * WINDOW) <= (k + 1) * limit - 1
    ensures times != [] ==> KeyRun(limit, times).0.value.startedAt <= times[|times| - 1]
    ensures times != [] && times[|times| - 1] < from ==> AllowedIn(limit, times, from, from + k * WINDOW) == 0
    decreases |times|
  {
    Distribute(limit, 0, k);
    if times != [] {
      var init, last := times[..|times| - 1], times[|times| - 1];
      RateBound(limit, init, from, k);
      BudgetStep(limit, KeyRun(limit, init).0, AllowedIn(limit, init, from, from + k * WINDOW), last,
                 from, from + k * WINDOW, k);
    }
  }

  /** Requests of `key` the limiter allowed at times in [from, to) over a whole trace. */
  function AllowedCount(trace: seq<Request>, decisions: seq<Decision>, key: Key, from: Instant, to: Instant): nat
    requires |trace| == |decisions|
  {
    if trace == [] then 0 else
    var n := |trace| - 1;
    AllowedCount(trace[..n], decisions[..n], key, from, to)
    + if trace[n].key == key && decisions[n].Allowed? && from <= trace[n].at < to then 1 else 0
  }

  lemma {:induction false} AllowedCountIsOwn(
    config: Config, swept: Instant, trace: seq<Request>, key: Key, from: Instant, to: Instant)
    requires config.Limit(key) > 0 && Ordered(trace)
    ensures |Run(config, Limiter(map[], swept, 0), trace, true).1| == |trace|
    ensures AllowedCount(trace, Run(config, Limiter(map[], swept, 0), trace, true).1, key, from, to)
         == AllowedIn(config.Limit(key), TimesOf(trace, key), from, to)
    decreases |trace|
  {
    hide Counted, Checked, DecisionsOf, Run, KeyRun, AllowedIn, Live;
    var start := Limiter(map[], swept, 0);
    RunLength(config, start, trace);
    if trace == [] {
      RunNothing(config.Limit(key), from, to);
    } else {
      var init, last := trace[..|trace| - 1], trace[|trace| - 1];
      AllowedCountIsOwn(config, swept, init, key, from, to);
      KeysIsolated(config, swept, init, key, last.at);
      RunLast(config, start, trace);
      if last.key == key {
        var times := TimesOf(init, key);
        CheckIsOwn(config, Run(config, start, init, true).0, key, KeyRun(config.Limit(key), times).0, last.at);
        RunAppend(config.Limit(key), times, last.at, from, to);
      } else {
        assert TimesOf(trace, key) == TimesOf(init, key);
      }
    }
  }

  lemma {:induction false} RunLast(config: Config, start: Limiter, trace: seq<Request>)
    requires trace != []
    ensures var init, last := trace[..|trace| - 1], trace[|trace| - 1];
            var (s, decisions) := Run(config, start, init, true);
            Run(config, start, trace, true).1 == decisions + [Checked(config, s, last.key, last.at, true).1]
  {
  }

  lemma {:induction false} TimesOrdered(trace: seq<Request>, key: Key)
    requires Ordered(trace)
    ensures OrderedTimes(TimesOf(trace, key))
    ensures trace != [] ==> forall t :: t in TimesOf(trace, key) ==> t <= trace[|trace| - 1].at
    decreases |trace|
  {
    if trace != [] {
      var init, last := trace[..|trace| - 1], trace[|trace| - 1];
      TimesOrdered(init, key);
      var earlier, times := TimesOf(init, key), TimesOf(trace, key);
      forall i | 0 <= i < |earlier| ensures earlier[i] <= last.at {
        assert earlier[i] in earlier;
      }
    }
  }

  /** The rate bound of the whole limiter, sweeps and other keys included. */
  lemma LimiterRateBound(config: Config, swept: Instant, trace: seq<Request>, key: Key, from: Instant, k: nat)
    requires Ordered(trace) && (if key.Jkt? then config.perJkt > 0 else config.perIp > 0)
    ensures |Run(config, Limiter(map[], swept, 0), trace, true).1| == |trace|
    ensures AllowedCount(trace, Run(config, Limiter(map[], swept, 0), trace, true).1, key, from, from + k * 60_000_000_000)
         <= (k + 1) * (if key.Jkt? then config.perJkt else config.perIp) - 1
  {
    AllowedCountIsOwn(config, swept, trace, key, from, from + k * WINDOW);
    TimesOrdered(trace, key);
    RateBound(config.Limit(key), TimesOf(trace, key), from, k);
  }

  /** One more request. */
  lemma {:induction false} RunAppend(limit: nat, times: seq<Instant>, t: Instant, from: Instant, to: Instant)
    ensures var (v, decision) := Counted(KeyRun(limit, times).0, limit, t);
            && KeyRun(limit, times + [t]).0 == Some(v)
            && AllowedIn(limit, times + [t], from, to)
            == AllowedIn(limit, times, from, to) + if decision.Allowed? && from <= t < to then 1 else 0
  {
    var longer := times + [t];
    assert longer[..|longer| - 1] == times;
  }

  lemma RunNothing(limit: nat, from: Instant, to: Instant)
    ensures KeyRun(limit, []).0 == None && AllowedIn(limit, [], from, to) == 0
  {
  }

  // ---- The bound is attained ----

  /** `n` more requests at the same instant. */
  function Burst(times: seq<Instant>, t: Instant, n: nat): seq<Instant> {
    if n == 0 then times else Burst(times, t, n - 1) + [t]
  }

  lemma {:induction false} BurstOrdered(times: seq<Instant>, t: Instant, n: nat)
    requires OrderedTimes(times) && forall i :: 0 <= i < |times| ==> times[i] <= t
    ensures OrderedTimes(Burst(times, t, n)) && forall i :: 0 <= i < |Burst(times, t, n)| ==> Burst(times, t, n)[i] <= t
    decreases n
  {
    if n > 0 {
      BurstOrdered(times, t, n - 1);
    }
  }

  lemma {:induction false} BurstAllowed(limit: nat, times: seq<Instant>, t: Instant, n: nat, w: Window, from: Instant, to: Instant)
    requires KeyRun(limit, times).0 == Some(w) && Since(t, w.startedAt) < WINDOW
    requires w.count + n <= limit && from <= t < to
    ensures KeyRun(limit, Burst(times, t, n)).0 == Some(w.(count := w.count + n))
    ensures AllowedIn(limit, Burst(times, t, n), from, to) == AllowedIn(limit, times, from, to) + n
    decreases n
  {
    hide KeyRun, AllowedIn;
    if n > 0 {
      BurstAllowed(limit, times, t, n - 1, w, from, to);
      RunAppend(limit, Burst(times, t, n - 1), t, from, to);
    }
  }

  /** One request at the origin, the rest of its budget at the very end of the window, and a
      full budget at the start of each of the next `k` windows. */
  function Greedy(limit: nat, k: nat): seq<Instant>
    requires limit >= 1
  {
    if k == 0 then Burst([0], WINDOW - 1, limit - 1)
    else Burst(Greedy(limit, k - 1) + [k * WINDOW], k * WINDOW, limit - 1)
  }

  /** `times` used up its latest window, which began at `start`. */
  ghost predicate Exhausts(limit: nat, times: seq<Instant>, start: Instant, to: Instant, allowed: nat) {
    && OrderedTimes(times) && (forall i :: 0 <= i < |times| ==> times[i] < start + WINDOW)
    && KeyRun(limit, times).0 == Some(Window(limit, start))
    && AllowedIn(limit, times, 1, to) == allowed
  }

  lemma {:induction false} GreedyOrigin(limit: nat, to: Instant)
    requires limit >= 1 && WINDOW <= to
    ensures Exhausts(limit, Burst([0], WINDOW - 1, limit - 1), 0, to, limit - 1)
  {
    hide Burst, KeyRun, AllowedIn;
    RunNothing(limit, 1, to);
    RunAppend(limit, [], 0, 1, to);
    assert [] + [0] == [0];
    BurstOrdered([0], WINDOW - 1, limit - 1);
    BurstAllowed(limit, [0], WINDOW - 1, limit - 1, Window(1, 0), 1, to);
  }

  lemma {:induction false} GreedyWindow(limit: nat, times: seq<Instant>, start: Instant, to: Instant, allowed: nat)
    requires limit >= 1 && start + WINDOW < to && Exhausts(limit, times, start, to, allowed)
    ensures Exhausts(limit, Burst(times + [start + WINDOW], start + WINDOW, limit - 1), start + WINDOW, to, allowed + limit)
  {
    hide Burst, KeyRun, AllowedIn;
    var t, begun := start + WINDOW, times + [start + WINDOW];
    RunAppend(limit, times, t, 1, to);
    BurstOrdered(begun, t, limit - 1);
    BurstAllowed(limit, begun, t, limit - 1, Window(1, t), 1, to);
  }

  lemma {:induction false} GreedyAllowed(limit: nat, k: nat, to: Instant)
    requires limit >= 1 && WINDOW <= to && k * WINDOW < to
    ensures Exhausts(limit, Greedy(limit, k), k * WINDOW, to, limit * k + limit - 1)
    decreases k
  {
    hide Exhausts;
    if k == 0 {
      GreedyOrigin(limit, to);
    } else {
      GreedyAllowed(limit, k - 1, to);
      GreedyWindow(limit, Greedy(limit, k - 1), (k - 1) * WINDOW, to, limit * (k - 1) + limit - 1);
      Distribute(limit, k - 1, k);
    }
  }

  /** For every limit and every number of windows some trace attains the bound. */
  lemma RateBoundTight(limit: nat, k: nat)
    requires limit >= 1 && k >= 1
    ensures OrderedTimes(Greedy(limit, k))
    ensures AllowedIn(limit, Greedy(limit, k), 1, 1 + k * WINDOW) == (k + 1) * limit - 1
  {
    GreedyAllowed(limit, k, 1 + k * WINDOW);
    Distribute(limit, k, k);
  }

  // ---- When a request is refused ----

  lemma {:induction false} NoneBefore(limit: nat, times: seq<Instant>, from: Instant, to: Instant)
    requires forall i :: 0 <= i < |times| ==> times[i] < from
    ensures AllowedIn(limit, times, from, to) == 0
    decreases |times|
  {
    if times != [] {
      NoneBefore(limit, times[..|times| - 1], from, to);
    }
  }

  /** The window was opened by one of the requests, is still running at the last one, and
      counts exactly the requests allowed since. */
  ghost predicate CountsFrom(limit: nat, times: seq<Instant>, w: Window) {
    && times != [] && w.startedAt in times
    && w.startedAt <= times[|times| - 1] < w.startedAt + WINDOW
    && w.count == AllowedIn(limit, times, w.startedAt, w.startedAt + WINDOW) <= limit
  }

  lemma {:induction false} SameWindow(limit: nat, times: seq<Instant>, w: Window, t: Instant)
    requires CountsFrom(limit, times, w) && KeyRun(limit, times).0 == Some(w)
    requires times[|times| - 1] <= t && Live(Some(w), t).Some?
    ensures CountsFrom(limit, times + [t], Counted(Some(w), limit, t).0)
  {
    hide KeyRun, AllowedIn;
    RunAppend(limit, times, t, w.startedAt, w.startedAt + WINDOW);
  }

  lemma {:induction false} NewWindow(limit: nat, times: seq<Instant>, t: Instant)
    requires limit >= 1 && Live(KeyRun(limit, times).0, t).None?
    requires forall i :: 0 <= i < |times| ==> times[i] < t
    ensures CountsFrom(limit, times + [t], Counted(KeyRun(limit, times).0, limit, t).0)
  {
    hide KeyRun, AllowedIn;
    RunAppend(limit, times, t, t, t + WINDOW);
    NoneBefore(limit, times, t, t + WINDOW);
  }

  lemma {:induction false} WindowCounts(limit: nat, times: seq<Instant>)
    requires limit >= 1 && OrderedTimes(times) && times != []
    ensures KeyRun(limit, times).0.Some? && CountsFrom(limit, times, KeyRun(limit, times).0.value)
    decreases |times|
  {
    hide KeyRun, AllowedIn, Counted;
    var init, last := times[..|times| - 1], times[|times| - 1];
    assert times == init + [last];
    RunAppend(limit, init, last, 0, 0);
    RunNothing(limit, 0, 0);
    if init != [] {
      WindowCounts(limit, init);
    }
    var w := KeyRun(limit, init).0;
    if Live(w, last).Some? {
      SameWindow(limit, init, w.value, last);
    } else {
      NewWindow(limit, init, last);
    }
  }

  /** A key's next request is refused if and only if some earlier request of it opened a
      window that is still running and in which `limit` requests were allowed; it is then told
      to wait for the whole seconds left of that window, and at least one. */
  lemma RefusedIff(limit: nat, times: seq<Instant>, at: Instant)
    requires limit >= 1 && OrderedTimes(times) && (times != [] ==> times[|times| - 1] <= at)
    ensures var w := KeyRun(limit, times).0;
            Counted(w, limit, at).1.Limited? <==>
              && times != [] && at < w.value.startedAt + WINDOW
              && AllowedIn(limit, times, w.value.startedAt, w.value.startedAt + WINDOW) == limit
    ensures var w := KeyRun(limit, times).0;
            var d := Counted(w, limit, at).1;
            d.Limited? ==>
              && times != [] && w.value.startedAt <= at < w.value.startedAt + 60_000_000_000
              && var left := w.value.startedAt + 60_000_000_000 - at;
                 d.retryAfterSeconds == if left >= 1_000_000_000 then left / 1_000_000_000 else 1
  {
    if times != [] {
      WindowCounts(limit, times);
    }
  }

  // ---- The whole limiter ----

  function Refusals(decisions: seq<Decision>): nat {
    if decisions == [] then 0 else
    Refusals(decisions[..|decisions| - 1]) + if decisions[|decisions| - 1].Limited? then 1 else 0
  }

  /** The total counts the refusals. */
  lemma {:induction false} TotalCountsRefusals(config: Config, start: Limiter, trace: seq<Request>)
    ensures var (s, decisions) := Run(config, start, trace, true);
            s.limitedTotal == start.limitedTotal + Refusals(decisions)
    decreases |trace|
  {
    if trace != [] {
      var init, last := trace[..|trace| - 1], trace[|trace| - 1];
      TotalCountsRefusals(config, start, init);
      RunLast(config, start, trace);
      var (s, decisions) := Run(config, start, init, true);
      assert Run(config, start, trace, true).1[..|decisions|] == decisions;
    }
  }

  /** A dimension with a zero budget is not limited and not tracked. */
  lemma ZeroDisables(config: Config, s: Limiter, key: Key, now: Instant)
    requires if key.Jkt? then config.perJkt == 0 else config.perIp == 0
    ensures Checked(config, s, key, now, true) == (s, Allowed)
  {
  }

  /** No window outlives its usefulness for long: at every check of a limited key, all windows
      held were opened less than two window lengths ago. */
  lemma {:induction false} SweepBoundsMemory(config: Config, swept: Instant, trace: seq<Request>)
    requires Ordered(trace) && (trace != [] ==> swept <= trace[0].at)
    ensures var s := Run(config, Limiter(map[], swept, 0), trace, true).0;
            && (if trace == [] then s.lastSweep == swept else s.lastSweep <= trace[|trace| - 1].at)
            && (forall key :: key in s.windows ==> Since(s.lastSweep, s.windows[key].startedAt) < WINDOW)
            && (trace != [] && config.Limit(trace[|trace| - 1].key) > 0 ==>
                  && Since(trace[|trace| - 1].at, s.lastSweep) < WINDOW
                  && forall key :: key in s.windows ==> trace[|trace| - 1].at < s.windows[key].startedAt + 2 * WINDOW)
    decreases |trace|
  {
    if trace != [] {
      var init, last := trace[..|trace| - 1], trace[|trace| - 1];
      SweepBoundsMemory(config, swept, init);
      SweepStep(config, Run(config, Limiter(map[], swept, 0), init, true).0, last.key, last.at);
    }
  }

  lemma SweepStep(config: Config, s: Limiter, key: Key, now: Instant)
    requires s.lastSweep <= now && forall k :: k in s.windows ==> Since(s.lastSweep, s.windows[k].startedAt) < WINDOW
    ensures var t := Checked(config, s, key, now, true).0;
            && t.lastSweep <= now
            && (forall k :: k in t.windows ==> Since(t.lastSweep, t.windows[k].startedAt) < WINDOW)
            && (config.Limit(key) > 0 ==> Since(now, t.lastSweep) < WINDOW)
  {
  }

  // ---- Retrying ----

  /** A refused request repeated `retry_after + 1` seconds later, with none of that key in
      between, is allowed; repeated after exactly `retry_after` seconds it is allowed if and
      only if no fraction of a second was cut off. */
  lemma RetryAllowed(w: Option<Window>, limit: nat, now: Instant, later: Instant)
    requires limit >= 1 && Counted(w, limit, now).1.Limited?
    requires w.Some? ==> w.value.startedAt <= now
    ensures var (v, decision) := Counted(w, limit, now);
            var wait := decision.retryAfterSeconds;
            var left := WINDOW - Since(now, v.startedAt);
            && (later >= now + (wait + 1) * NANOS ==> Counted(Some(v), limit, later).1.Allowed?)
            && (Counted(Some(v), limit, now + wait * NANOS).1.Allowed? <==> left % NANOS == 0 || left < NANOS)
  {
  }

  const HALF: Instant := 500_000_000

  lemma HalfSecond()
    ensures Counted(None, 1, 0) == (Window(1, 0), Allowed)
    ensures Counted(Some(Window(1, 0)), 1, HALF) == (Window(1, 0), Limited(59))
    ensures Counted(Some(Window(1, 0)), 1, HALF + 59 * NANOS).1.Limited?
  {
  }

  /** Limit one, requests at 0 and at half a second: the second is told to wait 59 seconds, and
      refused again when it does. */
  lemma RetryTooEarly()
    ensures OrderedTimes([0, HALF]) && Counted(KeyRun(1, [0]).0, 1, HALF).1 == Limited(59)
    ensures Counted(KeyRun(1, [0, HALF]).0, 1, HALF + 59 * NANOS).1.Limited?
  {
    hide KeyRun, AllowedIn, Counted;
    HalfSecond();
    RunNothing(1, 0, 0);
    RunAppend(1, [], 0, 0, 0);
    assert [] + [0] == [0];
    RunAppend(1, [0], HALF, 0, 0);
    assert [0] + [HALF] == [0, HALF];
  }
}
