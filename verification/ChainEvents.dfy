/** The chain-event subscription loop: startup sweep, subscribe, drain, resume, back off.
    The source is a script of subscribe attempts; when it runs out the loop stops. Every
    finite prefix of a production run is such a script. Everything the loop does is written
    to a log, and the guarantees are stated on the log alone. */
module ChainEvents {
  import opened Types

  const RECONNECT_BACKOFF_INITIAL_SECONDS := 1
  const RECONNECT_BACKOFF_MAX_SECONDS := 30

  type Cursor = nat

  datatype Resume = LiveTail | After(cursor: Cursor)

  datatype Delivery = Delivery(visibleTip: u64, settledTip: u64, cursor: Cursor, reverted: Option<(u64, u64)>)

  datatype StreamItem = Delivered(delivery: Delivery) | CursorExpired | Disconnect

  /** Outcome of one subscribe; an opened stream yields its items and then ends. */
  datatype Attempt = Open(items: seq<StreamItem>) | CursorRejected | Reconnect

  datatype DrainStop = StopExpired | StopReconnect

  /** What the loop did. `Applied` marks the resume position moving past a delivery. */
  datatype Entry =
    | Reconcile
    | Subscribe(resume: Resume)
    | StoreView(visibleTip: u64, settledTip: u64)
    | Applied(cursor: Cursor)
    | HandleReorg(start: u64, end: u64)
    | Sleep(seconds: nat)

  function Grow(backoff: nat): nat {
    Min(backoff * 2, RECONNECT_BACKOFF_MAX_SECONDS)
  }

  // ---- What the log must say ----

  /** The last delivery applied since the latest reconcile. */
  function LastApplied(log: seq<Entry>): Option<Cursor> {
    if log == [] then None else
    match log[|log| - 1]
    case Reconcile => None
    case Applied(cursor) => Some(cursor)
    case _ => LastApplied(log[..|log| - 1])
  }

  function Position(log: seq<Entry>): Resume {
    if LastApplied(log).Some? then After(LastApplied(log).value) else LiveTail
  }

  /** Sleeps since the last applied delivery. */
  function SleepsSinceProgress(log: seq<Entry>): nat {
    if log == [] then 0 else
    match log[|log| - 1]
    case Applied(_) => 0
    case Sleep(_) => 1 + SleepsSinceProgress(log[..|log| - 1])
    case _ => SleepsSinceProgress(log[..|log| - 1])
  }

  function Pow2(n: nat): nat {
    if n == 0 then 1 else 2 * Pow2(n - 1)
  }

  /** 1, 2, 4, 8, 16, 30, 30, … seconds. */
  function Backoff(sleeps: nat): nat {
    Min(Pow2(sleeps), RECONNECT_BACKOFF_MAX_SECONDS)
  }

  /** Every subscribe resumes at the right position and every sleep has the right length. */
  predicate EntryOk(log: seq<Entry>, i: nat)
    requires i < |log|
  {
    match log[i]
    case Subscribe(resume) => resume == Position(log[..i])
    case Sleep(seconds) => seconds == Backoff(SleepsSinceProgress(log[..i]))
    case _ => true
  }

  predicate Disciplined(log: seq<Entry>) {
    forall i :: 0 <= i < |log| ==> EntryOk(log, i)
  }

  // ---- What the source delivered ----

  /** The deliveries a drain consumes: those before the first other item. */
  function Consumed(items: seq<StreamItem>): seq<Delivery> {
    if items == [] || !items[0].Delivered? then [] else [items[0].delivery] + Consumed(items[1..])
  }

  /** The first item that is not a delivery, if any, is a cursor expiry. */
  predicate Expires(items: seq<StreamItem>) {
    items != [] && if items[0].Delivered? then Expires(items[1..]) else items[0].CursorExpired?
  }

  function ConsumedBy(attempt: Attempt): seq<Delivery> {
    if attempt.Open? then Consumed(attempt.items) else []
  }

  predicate EndsExpired(attempt: Attempt) {
    attempt.CursorRejected? || (attempt.Open? && Expires(attempt.items))
  }

  function AllConsumed(attempts: seq<Attempt>): seq<Delivery> {
    if attempts == [] then [] else AllConsumed(attempts[..|attempts| - 1]) + ConsumedBy(attempts[|attempts| - 1])
  }

  function Expiries(attempts: seq<Attempt>): nat {
    if attempts == [] then 0 else
    Expiries(attempts[..|attempts| - 1]) + if EndsExpired(attempts[|attempts| - 1]) then 1 else 0
  }

  function EffectOf(d: Delivery): seq<Entry> {
    [StoreView(d.visibleTip, d.settledTip), Applied(d.cursor)]
    + if d.reverted.Some? then [HandleReorg(d.reverted.value.0, d.reverted.value.1)] else []
  }

  /** Each delivery's effects, in order: view, position, reorg. */
  function Effects(deliveries: seq<Delivery>): seq<Entry> {
    if deliveries == [] then [] else Effects(deliveries[..|deliveries| - 1]) + EffectOf(deliveries[|deliveries| - 1])
  }

  predicate IsEffect(e: Entry) {
    e.StoreView? || e.Applied? || e.HandleReorg?
  }

  function EffectsIn(log: seq<Entry>): seq<Entry> {
    if log == [] then [] else
    EffectsIn(log[..|log| - 1]) + if IsEffect(log[|log| - 1]) then [log[|log| - 1]] else []
  }

  function ReconcilesIn(log: seq<Entry>): nat {
    if log == [] then 0 else
    ReconcilesIn(log[..|log| - 1]) + if log[|log| - 1].Reconcile? then 1 else 0
  }

  /** What an entry is, without the position and the length that `Disciplined` pins down. */
  function Kind(e: Entry): Entry {
    match e
    case Subscribe(_) => Subscribe(LiveTail)
    case Sleep(_) => Sleep(0)
    case _ => e
  }

  function Outline(log: seq<Entry>): seq<Entry> {
    seq(|log|, i requires 0 <= i < |log| => Kind(log[i]))
  }

  /** One attempt: a subscribe, the effects of what it delivered, a sweep or a sleep. */
  function AttemptOutline(attempt: Attempt): seq<Entry> {
    [Subscribe(LiveTail)] + Effects(ConsumedBy(attempt)) + [if EndsExpired(attempt) then Reconcile else Sleep(0)]
  }

  /** A startup sweep, then the attempts one after another. */
  function Expected(attempts: seq<Attempt>): seq<Entry> {
    if attempts == [] then [Reconcile]
    else Expected(attempts[..|attempts| - 1]) + AttemptOutline(attempts[|attempts| - 1])
  }

  // ---- Appending to the log ----

  lemma {:induction false} Append(log: seq<Entry>, e: Entry)
    requires Disciplined(log)
    requires e.Subscribe? ==> e.resume == Position(log)
    requires e.Sleep? ==> e.seconds == Backoff(SleepsSinceProgress(log))
    ensures Disciplined(log + [e])
    ensures Outline(log + [e]) == Outline(log) + [Kind(e)]
    ensures EffectsIn(log + [e]) == EffectsIn(log) + if IsEffect(e) then [e] else []
    ensures ReconcilesIn(log + [e]) == ReconcilesIn(log) + if e.Reconcile? then 1 else 0
    ensures Position(log + [e]) ==
              if e.Reconcile? then LiveTail else if e.Applied? then After(e.cursor) else Position(log)
    ensures SleepsSinceProgress(log + [e]) ==
              if e.Applied? then 0 else SleepsSinceProgress(log) + if e.Sleep? then 1 else 0
  {
    var longer := log + [e];
    assert longer[..|longer| - 1] == log;
    forall i | 0 <= i < |longer| ensures EntryOk(longer, i) {
      if i < |log| {
        assert EntryOk(log, i);
        assert longer[..i] == log[..i];
      } else {
        assert longer[..i] == log;
      }
    }
  }

  lemma {:induction false} EffectsAppend(deliveries: seq<Delivery>, d: Delivery)
    ensures Effects(deliveries + [d]) == Effects(deliveries) + EffectOf(d)
  {
    var longer := deliveries + [d];
    assert longer[..|longer| - 1] == deliveries;
  }

  lemma Origins()
    ensures Effects([]) == [] && Backoff(0) == 1
  {
  }

  lemma {:induction false} EffectsConcat(a: seq<Delivery>, b: seq<Delivery>)
    ensures Effects(a + b) == Effects(a) + Effects(b)
    decreases |b|
  {
    hide Effects, EffectOf;
    if b == [] {
      Origins();
      assert a + b == a;
    } else {
      var init, last := b[..|b| - 1], b[|b| - 1];
      EffectsConcat(a, init);
      assert a + b == (a + init) + [last] && b == init + [last];
      EffectsAppend(a + init, last);
      EffectsAppend(init, last);
    }
  }

  lemma BackoffGrows(n: nat)
    ensures Grow(Backoff(n)) == Backoff(n + 1)
  {
  }

  /** The sleeps in seconds: 1, 2, 4, 8, 16, and 30 from then on. */
  lemma {:induction false} BackoffSeconds(n: nat)
    ensures Backoff(0) == 1 && Backoff(1) == 2 && Backoff(2) == 4 && Backoff(3) == 8 && Backoff(4) == 16
    ensures n >= 5 ==> Backoff(n) == 30
    decreases n
  {
    assert Pow2(1) == 2 && Pow2(2) == 4 && Pow2(3) == 8 && Pow2(4) == 16 && Pow2(5) == 32;
    if n > 5 {
      BackoffSeconds(n - 1);
    }
  }

  // ---- The loop ----

  /** Facts the loop keeps between entries. */
  ghost predicate LoopInv(log: seq<Entry>, resume: Resume, backoff: nat, progressed: bool) {
    && Disciplined(log)
    && resume == Position(log)
    && (progressed ==> SleepsSinceProgress(log) == 0)
    && (!progressed ==> backoff == Backoff(SleepsSinceProgress(log)))
  }

  method Apply(log: seq<Entry>, d: Delivery, ghost backoff: nat, ghost resume: Resume, ghost progressed: bool)
    returns (after: seq<Entry>)
    requires LoopInv(log, resume, backoff, progressed)
    ensures LoopInv(after, After(d.cursor), backoff, true)
    ensures EffectsIn(after) == EffectsIn(log) + EffectOf(d) && ReconcilesIn(after) == ReconcilesIn(log)
    ensures Outline(after) == Outline(log) + EffectOf(d)
  {
    hide Disciplined, Position, SleepsSinceProgress, Backoff, Outline, EffectsIn, ReconcilesIn;
    Append(log, StoreView(d.visibleTip, d.settledTip));
    after := log + [StoreView(d.visibleTip, d.settledTip)];
    Append(after, Applied(d.cursor));
    after := after + [Applied(d.cursor)];
    if d.reverted.Some? {
      Append(after, HandleReorg(d.reverted.value.0, d.reverted.value.1));
      after := after + [HandleReorg(d.reverted.value.0, d.reverted.value.1)];
    }
  }

  /** Drains one subscription until it errors or ends. */
  method Drain(log: seq<Entry>, items: seq<StreamItem>, resume: Resume, ghost backoff: nat)
    returns (after: seq<Entry>, position: Resume, stop: DrainStop, progressed: bool)
    requires LoopInv(log, resume, backoff, false)
    ensures LoopInv(after, position, backoff, progressed)
    ensures EffectsIn(after) == EffectsIn(log) + Effects(Consumed(items)) && ReconcilesIn(after) == ReconcilesIn(log)
    ensures Outline(after) == Outline(log) + Effects(Consumed(items))
    ensures stop == if Expires(items) then StopExpired else StopReconnect
    ensures progressed <==> Consumed(items) != []
  {
    hide LoopInv, Outline, EffectsIn, ReconcilesIn, Effects, EffectOf;
    after, position, progressed := log, resume, false;
    assert Effects([]) == [] by { Origins(); }
    ghost var taken: seq<Delivery> := [];
    var i := 0;
    while i < |items|
      invariant 0 <= i <= |items|
      invariant LoopInv(after, position, backoff, progressed)
      invariant Consumed(items) == taken + Consumed(items[i..]) && Expires(items) == Expires(items[i..])
      invariant EffectsIn(after) == EffectsIn(log) + Effects(taken) && ReconcilesIn(after) == ReconcilesIn(log)
      invariant Outline(after) == Outline(log) + Effects(taken)
      invariant progressed <==> taken != []
    {
      match items[i] {
        case Delivered(d) =>
          after := Apply(after, d, backoff, position, progressed);
          progressed, position := true, After(d.cursor);
          assert items[i..][1..] == items[i + 1..];
          EffectsAppend(taken, d);
          assert taken + Consumed(items[i..]) == (taken + [d]) + Consumed(items[i + 1..]);
          taken := taken + [d];
        case CursorExpired =>
          assert Consumed(items) == taken;
          return after, position, StopExpired, progressed;
        case Disconnect =>
          assert Consumed(items) == taken;
          return after, position, StopReconnect, progressed;
      }
      i := i + 1;
    }
    assert Consumed(items) == taken;
    stop := StopReconnect;
  }

  method SweepAndReanchor(log: seq<Entry>, ghost resume: Resume, ghost backoff: nat)
    returns (after: seq<Entry>, position: Resume)
    requires LoopInv(log, resume, backoff, false)
    ensures LoopInv(after, position, backoff, false)
    ensures EffectsIn(after) == EffectsIn(log) && ReconcilesIn(after) == ReconcilesIn(log) + 1
    ensures Outline(after) == Outline(log) + [Reconcile]
  {
    Append(log, Reconcile);
    after, position := log + [Reconcile], LiveTail;
  }

  method SleepAndGrow(log: seq<Entry>, ghost resume: Resume, backoff: nat) returns (after: seq<Entry>, grown: nat)
    requires LoopInv(log, resume, backoff, false)
    ensures LoopInv(after, resume, grown, false)
    ensures EffectsIn(after) == EffectsIn(log) && ReconcilesIn(after) == ReconcilesIn(log)
    ensures Outline(after) == Outline(log) + [Sleep(0)]
  {
    BackoffGrows(SleepsSinceProgress(log));
    Append(log, Sleep(backoff));
    after, grown := log + [Sleep(backoff)], Grow(backoff);
  }

  /** One turn of the loop: subscribe, then act on the outcome. */
  method Turn(log: seq<Entry>, attempt: Attempt, resume: Resume, backoff: nat)
    returns (after: seq<Entry>, position: Resume, grown: nat)
    requires LoopInv(log, resume, backoff, false)
    ensures LoopInv(after, position, grown, false)
    ensures EffectsIn(after) == EffectsIn(log) + Effects(ConsumedBy(attempt))
    ensures ReconcilesIn(after) == ReconcilesIn(log) + if EndsExpired(attempt) then 1 else 0
    ensures Outline(after) == Outline(log) + AttemptOutline(attempt)
  {
    hide Disciplined, Position, SleepsSinceProgress, Backoff, Outline, EffectsIn, ReconcilesIn, Effects, Consumed, Expires;
    assert Backoff(0) == 1 && Effects([]) == [] by { Origins(); }
    Append(log, Subscribe(resume));
    after, position, grown := log + [Subscribe(resume)], resume, backoff;
    match attempt {
      case Open(items) =>
        var stop, progressed;
        after, position, stop, progressed := Drain(after, items, resume, backoff);
        if progressed {
          grown := RECONNECT_BACKOFF_INITIAL_SECONDS;
        }
        match stop {
          case StopExpired => after, position := SweepAndReanchor(after, position, grown);
          case StopReconnect => after, grown := SleepAndGrow(after, position, grown);
        }
      case CursorRejected => after, position := SweepAndReanchor(after, position, grown);
      case Reconnect => after, grown := SleepAndGrow(after, position, grown);
    }
  }

  lemma {:induction false} AttemptAppend(attempts: seq<Attempt>, i: nat)
    requires i < |attempts|
    ensures Expected(attempts[..i + 1]) == Expected(attempts[..i]) + AttemptOutline(attempts[i])
    ensures AllConsumed(attempts[..i + 1]) == AllConsumed(attempts[..i]) + ConsumedBy(attempts[i])
    ensures Expiries(attempts[..i + 1]) == Expiries(attempts[..i]) + if EndsExpired(attempts[i]) then 1 else 0
  {
    assert attempts[..i + 1][..i] == attempts[..i];
  }

  lemma {:induction false} Start()
    ensures LoopInv([Reconcile], LiveTail, RECONNECT_BACKOFF_INITIAL_SECONDS, false)
    ensures Outline([Reconcile]) == Expected([])
    ensures EffectsIn([Reconcile]) == Effects(AllConsumed([])) && ReconcilesIn([Reconcile]) == 1 + Expiries([])
  {
    Append([], Reconcile);
    assert [] + [Reconcile] == [Reconcile];
  }

  /** A subscribe at the current position is in order and changes nothing else. */
  lemma {:induction false} SubscribeOnce(log: seq<Entry>, resume: Resume, backoff: nat)
    requires LoopInv(log, resume, backoff, false)
    ensures Disciplined(log + [Subscribe(resume)])
    ensures Outline(log + [Subscribe(resume)]) == Outline(log) + [Subscribe(LiveTail)]
    ensures EffectsIn(log + [Subscribe(resume)]) == EffectsIn(log)
    ensures ReconcilesIn(log + [Subscribe(resume)]) == ReconcilesIn(log)
  {
    Append(log, Subscribe(resume));
  }

  /** One startup sweep, then subscribe, drain and resume until the source stops. The outline
      and the discipline together determine the log. */
  method RunLoop(attempts: seq<Attempt>) returns (log: seq<Entry>)
    ensures Disciplined(log)
    ensures Outline(log) == Expected(attempts) + [Subscribe(LiveTail)]
    ensures EffectsIn(log) == Effects(AllConsumed(attempts))
    ensures ReconcilesIn(log) == 1 + Expiries(attempts)
  {
    hide LoopInv, Disciplined, Position, Outline, EffectsIn, ReconcilesIn, Effects, AttemptOutline;
    Start();
    log := [Reconcile];
    var resume := LiveTail;
    var backoff: nat := RECONNECT_BACKOFF_INITIAL_SECONDS;
    var i := 0;
    while i < |attempts|
      invariant 0 <= i <= |attempts|
      invariant LoopInv(log, resume, backoff, false)
      invariant Outline(log) == Expected(attempts[..i])
      invariant EffectsIn(log) == Effects(AllConsumed(attempts[..i]))
      invariant ReconcilesIn(log) == 1 + Expiries(attempts[..i])
    {
      AttemptAppend(attempts, i);
      EffectsConcat(AllConsumed(attempts[..i]), ConsumedBy(attempts[i]));
      log, resume, backoff := Turn(log, attempts[i], resume, backoff);
      i := i + 1;
    }
    assert attempts[..i] == attempts;
    SubscribeOnce(log, resume, backoff);
    log := log + [Subscribe(resume)];
  }

  lemma DisciplinedPrefix(log: seq<Entry>)
    requires Disciplined(log) && log != []
    ensures Disciplined(log[..|log| - 1])
  {
    var init := log[..|log| - 1];
    forall i | 0 <= i < |init| ensures EntryOk(init, i) {
      assert EntryOk(log, i);
      assert init[..i] == log[..i];
    }
  }

  /** A disciplined log is determined by its outline. */
  lemma {:induction false} LogDetermined(a: seq<Entry>, b: seq<Entry>)
    requires Disciplined(a) && Disciplined(b) && Outline(a) == Outline(b)
    ensures a == b
    decreases |a|
  {
    assert |Outline(a)| == |a| && |Outline(b)| == |b|;
    if a != [] {
      var n := |a| - 1;
      DisciplinedPrefix(a);
      DisciplinedPrefix(b);
      assert Outline(a[..n]) == Outline(a)[..n] && Outline(b[..n]) == Outline(b)[..n];
      LogDetermined(a[..n], b[..n]);
      assert EntryOk(a, n) && EntryOk(b, n);
      assert Kind(a[n]) == Outline(a)[n] && Kind(b[n]) == Outline(b)[n];
      assert a == a[..n] + [a[n]] && b == b[..n] + [b[n]];
    }
  }

  // ---- Reorgs reach the sink ----

  function ReorgsIn(log: seq<Entry>): seq<(u64, u64)> {
    if log == [] then [] else
    var last := log[|log| - 1];
    ReorgsIn(log[..|log| - 1]) + if last.HandleReorg? then [(last.start, last.end)] else []
  }

  function Ranges(deliveries: seq<Delivery>): seq<(u64, u64)> {
    if deliveries == [] then [] else
    var last := deliveries[|deliveries| - 1];
    Ranges(deliveries[..|deliveries| - 1]) + if last.reverted.Some? then [last.reverted.value] else []
  }

  lemma {:induction false} ReorgsAppend(log: seq<Entry>, e: Entry)
    ensures ReorgsIn(log + [e]) == ReorgsIn(log) + if e.HandleReorg? then [(e.start, e.end)] else []
  {
    assert (log + [e])[..|log + [e]| - 1] == log;
  }

  lemma {:induction false} ReorgsOfEffects(log: seq<Entry>)
    ensures ReorgsIn(EffectsIn(log)) == ReorgsIn(log)
    decreases |log|
  {
    if log != [] {
      var init, last := log[..|log| - 1], log[|log| - 1];
      ReorgsOfEffects(init);
      if IsEffect(last) {
        ReorgsAppend(EffectsIn(init), last);
      } else {
        assert EffectsIn(init) + [] == EffectsIn(init);
      }
    }
  }

  lemma {:induction false} ReorgsOfDeliveries(deliveries: seq<Delivery>)
    ensures ReorgsIn(Effects(deliveries)) == Ranges(deliveries)
    decreases |deliveries|
  {
    if deliveries == [] {
      Origins();
    } else {
      hide Effects, ReorgsIn;
      var init, d := deliveries[..|deliveries| - 1], deliveries[|deliveries| - 1];
      ReorgsOfDeliveries(init);
      assert deliveries == init + [d];
      EffectsAppend(init, d);
      ReorgsOfEffect(Effects(init), d);
    }
  }

  lemma {:induction false} ReorgsOfEffect(log: seq<Entry>, d: Delivery)
    ensures ReorgsIn(log + EffectOf(d)) == ReorgsIn(log) + if d.reverted.Some? then [d.reverted.value] else []
  {
    hide ReorgsIn;
    var view, mark := StoreView(d.visibleTip, d.settledTip), Applied(d.cursor);
    ReorgsAppend(log, view);
    ReorgsAppend(log + [view], mark);
    var shorter := log + [view] + [mark];
    if d.reverted.Some? {
      var reorg := HandleReorg(d.reverted.value.0, d.reverted.value.1);
      ReorgsAppend(shorter, reorg);
      assert log + EffectOf(d) == shorter + [reorg];
    } else {
      assert log + EffectOf(d) == shorter;
    }
  }

  /** Whatever the loop logged, the reorgs that reached the sink are the reverted ranges of
      the deliveries it consumed: each one once, in order. */
  lemma ReorgsReachSink(log: seq<Entry>, attempts: seq<Attempt>)
    requires EffectsIn(log) == Effects(AllConsumed(attempts))
    ensures ReorgsIn(log) == Ranges(AllConsumed(attempts))
  {
    ReorgsOfEffects(log);
    ReorgsOfDeliveries(AllConsumed(attempts));
  }
}
