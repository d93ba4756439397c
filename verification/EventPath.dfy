/** The subscription loop as a driver of the settlement system: its log entries are steps of
    the state machine, two for an envelope that carries a reorg, a whole tick for a sweep. Main result: as long as nothing
    comes between the two halves of an envelope, no settled payment is lost, whatever steps safe
    for it the handlers, the sweeper and the ticks take between envelopes. */
module EventPath {
  import opened Types
  import opened ChainStatus
  import opened Prepare
  import opened Lifecycle
  import opened Permanence
  import opened TickRuns
  import C = ChainEvents

  // ---- Runs made of whole envelopes ----

  datatype Block = Envelope(delivery: C.Delivery, at: i64) | Other(step: Step)

  function StepsOf(block: Block): seq<Step> {
    match block
    case Other(step) => [step]
    case Envelope(d, at) =>
      [StoreView(d.visibleTip, d.settledTip)]
      + if d.reverted.Some? then [HandleReorg(d.reverted.value.0, d.reverted.value.1, at)] else []
  }

  function Flatten(blocks: seq<Block>): seq<Step> {
    if blocks == [] then [] else Flatten(blocks[..|blocks| - 1]) + StepsOf(blocks[|blocks| - 1])
  }

  /** The envelope does not lower the settled tip and reverts only above its own. */
  predicate EnvelopeOk(tip: Option<u64>, d: C.Delivery) {
    && (tip.Some? ==> tip.value <= d.settledTip)
    && (d.reverted.Some? ==> d.settledTip < d.reverted.value.0)
  }

  /** A whole envelope, or any step that is safe for the payment. */
  predicate BlockOk(st: System, block: Block, id: PaymentId) {
    match block
    case Other(step) => Enabled(st, step) && SafeFor(st, step, id)
    case Envelope(d, _) => EnvelopeOk(st.view.settledTip, d)
  }

  ghost predicate BlocksOk(env: Env, st: System, blocks: seq<Block>, id: PaymentId) {
    forall k :: 0 <= k < |blocks| ==> BlockOk(After(env, st, Flatten(blocks[..k])), blocks[k], id)
  }

  lemma EnvelopeKeeps(env: Env, st: System, d: C.Delivery, at: i64)
    requires Inv(st) && EnvelopeOk(st.view.settledTip, d)
    ensures var end := After(env, st, StepsOf(Envelope(d, at)));
            Inv(end) && KeepsSettled(st, end) && end.view == View(Some(d.visibleTip), Some(d.settledTip))
  {
    hide Next, Inv, After, SettledAt;
    var view := StoreView(d.visibleTip, d.settledTip);
    var stored := Next(env, st, view);
    OneStep(env, st, view);
    ViewStored(env, st, d.visibleTip, d.settledTip);
    StepKeepsInv(env, st, view);
    if d.reverted.Some? {
      var reorg := HandleReorg(d.reverted.value.0, d.reverted.value.1, at);
      AfterAppend(env, st, [view], reorg);
      assert StepsOf(Envelope(d, at)) == [view] + [reorg];
      StepKeepsInv(env, stored, reorg);
      ViewAfterStep(env, stored, reorg);
      AtomicEnvelopeKeepsSettled(env, st, d.visibleTip, d.settledTip, reorg.start, reorg.end, at);
    } else {
      assert StepsOf(Envelope(d, at)) == [view];
      CalmIsSafe(st, view);
      KeepsSettledIff(env, st, view);
    }
  }

  lemma BlockKeeps(env: Env, st: System, block: Block, id: PaymentId, height: u64)
    requires Inv(st) && BlockOk(st, block, id) && SettledAt(st, id, height)
    ensures var end := After(env, st, StepsOf(block)); Inv(end) && SettledAt(end, id, height)
  {
    hide Next, Inv, After, SettledAt, SafeFor, Enabled;
    match block {
      case Other(step) =>
        OneStep(env, st, step);
        StepKeepsInv(env, st, step);
        SafeForIff(env, st, step, id, height);
      case Envelope(d, at) => EnvelopeKeeps(env, st, d, at);
    }
  }

  lemma BlocksPrefix(env: Env, st: System, blocks: seq<Block>, id: PaymentId)
    requires blocks != [] && BlocksOk(env, st, blocks, id)
    ensures BlocksOk(env, st, blocks[..|blocks| - 1], id)
    ensures BlockOk(After(env, st, Flatten(blocks[..|blocks| - 1])), blocks[|blocks| - 1], id)
  {
    hide After, Flatten, BlockOk;
    var init := blocks[..|blocks| - 1];
    forall k | 0 <= k < |init| ensures BlockOk(After(env, st, Flatten(init[..k])), init[k], id) {
      assert init[..k] == blocks[..k] && init[k] == blocks[k];
    }
  }

  /** Settlement is permanent in every run whose envelopes are not torn apart and whose other
      steps are safe for the payment. */
  lemma {:induction false} EnvelopesLatch(env: Env, st: System, blocks: seq<Block>, id: PaymentId, height: u64)
    requires Inv(st) && BlocksOk(env, st, blocks, id) && SettledAt(st, id, height)
    ensures var end := After(env, st, Flatten(blocks)); Inv(end) && SettledAt(end, id, height)
    decreases |blocks|
  {
    hide Next, Inv, SettledAt, BlocksOk, BlockOk, StepsOf;
    if blocks != [] {
      var init, last := blocks[..|blocks| - 1], blocks[|blocks| - 1];
      BlocksPrefix(env, st, blocks, id);
      EnvelopesLatch(env, st, init, id, height);
      BlockKeeps(env, After(env, st, Flatten(init)), last, id, height);
      AfterConcat(env, st, Flatten(init), StepsOf(last));
    }
  }

  // ---- The loop's log ----

  /** What surrounds the loop: the steps of each sweep, by the position of its log entry, and
      the second at which a reorg is handled. */
  datatype Context = Context(sweeps: nat -> seq<Step>, clock: nat -> i64)

  /** What the log entry at position `n` does to the settlement system. */
  function StepsAt(e: C.Entry, n: nat, c: Context): seq<Step> {
    match e
    case Reconcile => c.sweeps(n)
    case StoreView(visible, settled) => [StoreView(visible, settled)]
    case HandleReorg(start, end) => [HandleReorg(start, end, c.clock(n))]
    case _ => []
  }

  function LogSteps(log: seq<C.Entry>, c: Context): seq<Step> {
    if log == [] then [] else
    LogSteps(log[..|log| - 1], c) + StepsAt(log[|log| - 1], |log| - 1, c)
  }

  /** The deliveries as envelopes, logged from position `n` on. */
  function Envelopes(n: nat, deliveries: seq<C.Delivery>, c: Context): seq<Block> {
    if deliveries == [] then [] else
    var init, last := deliveries[..|deliveries| - 1], deliveries[|deliveries| - 1];
    Envelopes(n, init, c) + [Envelope(last, c.clock(n + |C.Effects(init)| + 2))]
  }

  /** A sweep is steps of its own, among those of everybody else. */
  function Sweep(steps: seq<Step>): seq<Block> {
    seq(|steps|, i requires 0 <= i < |steps| => Other(steps[i]))
  }

  /** One subscribe attempt, logged from position `n` on. */
  function AttemptBlocks(n: nat, attempt: C.Attempt, c: Context): seq<Block> {
    var deliveries := C.ConsumedBy(attempt);
    Envelopes(n + 1, deliveries, c)
    + if C.EndsExpired(attempt) then Sweep(c.sweeps(n + 1 + |C.Effects(deliveries)|)) else []
  }

  /** The startup sweep, then the attempts one after another. */
  function LoopBlocks(attempts: seq<C.Attempt>, c: Context): seq<Block> {
    if attempts == [] then Sweep(c.sweeps(0)) else
    var init := attempts[..|attempts| - 1];
    LoopBlocks(init, c) + AttemptBlocks(|C.Expected(init)|, attempts[|attempts| - 1], c)
  }

  lemma {:induction false} LogStepsAppend(log: seq<C.Entry>, e: C.Entry, c: Context)
    ensures LogSteps(log + [e], c) == LogSteps(log, c) + StepsAt(e, |log|, c)
  {
    assert (log + [e])[..|log|] == log;
  }

  lemma {:induction false} FlattenAppend(blocks: seq<Block>, block: Block)
    ensures Flatten(blocks + [block]) == Flatten(blocks) + StepsOf(block)
  {
    assert (blocks + [block])[..|blocks|] == blocks;
  }

  lemma FlattenNothing()
    ensures Flatten([]) == []
  {
  }

  lemma {:induction false} FlattenConcat(a: seq<Block>, b: seq<Block>)
    ensures Flatten(a + b) == Flatten(a) + Flatten(b)
    decreases |b|
  {
    hide Flatten, StepsOf;
    if b == [] {
      FlattenNothing();
      assert a + b == a;
    } else {
      var init, last := b[..|b| - 1], b[|b| - 1];
      FlattenConcat(a, init);
      assert a + b == (a + init) + [last] && b == init + [last];
      FlattenAppend(a + init, last);
      FlattenAppend(init, last);
    }
  }

  lemma {:induction false} SweepFlattens(steps: seq<Step>)
    ensures Flatten(Sweep(steps)) == steps
    decreases |steps|
  {
    hide Flatten;
    if steps == [] {
      FlattenNothing();
      assert Sweep(steps) == [];
    } else {
      var init, last := steps[..|steps| - 1], steps[|steps| - 1];
      SweepFlattens(init);
      assert Sweep(steps) == Sweep(init) + [Other(last)];
      FlattenAppend(Sweep(init), Other(last));
    }
  }

  /** The loop logs view, position and reorg of a delivery next to one another. */
  lemma {:induction false} EffectIsEnvelope(log: seq<C.Entry>, d: C.Delivery, c: Context)
    ensures LogSteps(log + C.EffectOf(d), c) == LogSteps(log, c) + StepsOf(Envelope(d, c.clock(|log| + 2)))
  {
    hide LogSteps;
    var view, mark := C.StoreView(d.visibleTip, d.settledTip), C.Applied(d.cursor);
    LogStepsAppend(log, view, c);
    LogStepsAppend(log + [view], mark, c);
    if d.reverted.Some? {
      var reorg := C.HandleReorg(d.reverted.value.0, d.reverted.value.1);
      LogStepsAppend(log + [view] + [mark], reorg, c);
      assert log + C.EffectOf(d) == log + [view] + [mark] + [reorg];
    } else {
      assert log + C.EffectOf(d) == log + [view] + [mark];
    }
  }

  /** The loop never tears an envelope apart. */
  lemma {:induction false} LogIsEnvelopes(log: seq<C.Entry>, deliveries: seq<C.Delivery>, c: Context)
    ensures LogSteps(log + C.Effects(deliveries), c) == LogSteps(log, c) + Flatten(Envelopes(|log|, deliveries, c))
    decreases |deliveries|
  {
    hide LogSteps, Flatten, StepsOf, C.Effects, C.EffectOf;
    if deliveries == [] {
      FlattenNothing();
      C.Origins();
      assert log + [] == log;
    } else {
      var init, last := deliveries[..|deliveries| - 1], deliveries[|deliveries| - 1];
      LogIsEnvelopes(log, init, c);
      C.EffectsAppend(init, last);
      assert deliveries == init + [last];
      assert log + C.Effects(deliveries) == (log + C.Effects(init)) + C.EffectOf(last);
      EffectIsEnvelope(log + C.Effects(init), last, c);
      FlattenAppend(Envelopes(|log|, init, c), Envelope(last, c.clock(|log| + |C.Effects(init)| + 2)));
    }
  }

  lemma {:induction false} AttemptIsBlocks(log: seq<C.Entry>, attempt: C.Attempt, c: Context)
    ensures LogSteps(log + C.AttemptOutline(attempt), c) == LogSteps(log, c) + Flatten(AttemptBlocks(|log|, attempt, c))
  {
    hide LogSteps, Flatten, C.Effects, Envelopes, Sweep, C.ConsumedBy;
    var deliveries, start := C.ConsumedBy(attempt), log + [C.Subscribe(C.LiveTail)];
    var applied := start + C.Effects(deliveries);
    var end := if C.EndsExpired(attempt) then C.Reconcile else C.Sleep(0);
    LogStepsAppend(log, C.Subscribe(C.LiveTail), c);
    LogIsEnvelopes(start, deliveries, c);
    LogStepsAppend(applied, end, c);
    assert log + C.AttemptOutline(attempt) == applied + [end];
    var envelopes := Envelopes(|log| + 1, deliveries, c);
    if C.EndsExpired(attempt) {
      var sweep := c.sweeps(|applied|);
      SweepFlattens(sweep);
      FlattenConcat(envelopes, Sweep(sweep));
    } else {
      assert envelopes + [] == envelopes;
    }
  }

  /** What the loop does is whole envelopes and sweeps, in the order of the script. */
  lemma {:induction false} LoopIsBlocks(attempts: seq<C.Attempt>, c: Context)
    ensures LogSteps(C.Expected(attempts), c) == Flatten(LoopBlocks(attempts, c))
    decreases |attempts|
  {
    hide Flatten, AttemptBlocks, C.AttemptOutline, Sweep, LogSteps;
    if attempts == [] {
      SweepFlattens(c.sweeps(0));
      FirstSweep(c);
    } else {
      var init, last := attempts[..|attempts| - 1], attempts[|attempts| - 1];
      LoopIsBlocks(init, c);
      AttemptIsBlocks(C.Expected(init), last, c);
      FlattenConcat(LoopBlocks(init, c), AttemptBlocks(|C.Expected(init)|, last, c));
    }
  }

  lemma FirstSweep(c: Context)
    ensures LogSteps([C.Reconcile], c) == c.sweeps(0)
  {
    LogStepsAppend([], C.Reconcile, c);
    assert [] + [C.Reconcile] == [C.Reconcile];
  }

  /** Positions and lengths of sleeps do not matter to the settlement system. */
  lemma {:induction false} OutlineSteps(log: seq<C.Entry>, c: Context)
    ensures LogSteps(C.Outline(log), c) == LogSteps(log, c)
    decreases |log|
  {
    if log != [] {
      var n := |log| - 1;
      OutlineSteps(log[..n], c);
      assert C.Outline(log) == C.Outline(log[..n]) + [C.Kind(log[n])];
      assert log == log[..n] + [log[n]];
      hide LogSteps;
      LogStepsAppend(C.Outline(log[..n]), C.Kind(log[n]), c);
      LogStepsAppend(log[..n], log[n], c);
    }
  }

  /** The loop as a driver of the settlement system, its own sweeps included: every payment
      stays settled, if the envelopes it delivers do not lower the settled tip and revert only
      above their own, and the steps of its sweeps are safe for the payment. */
  lemma LoopLatches(env: Env, st: System, log: seq<C.Entry>, attempts: seq<C.Attempt>, c: Context, id: PaymentId, height: u64)
    requires C.Outline(log) == C.Expected(attempts) + [C.Subscribe(C.LiveTail)]
    requires Inv(st) && SettledAt(st, id, height) && BlocksOk(env, st, LoopBlocks(attempts, c), id)
    ensures SettledAt(After(env, st, LogSteps(log, c)), id, height)
  {
    hide Inv, SettledAt, After, BlocksOk, LogSteps, LoopBlocks, C.Outline, C.Expected, Flatten;
    OutlineSteps(log, c);
    LogStepsAppend(C.Expected(attempts), C.Subscribe(C.LiveTail), c);
    assert LogSteps(C.Expected(attempts), c) + [] == LogSteps(C.Expected(attempts), c);
    LoopIsBlocks(attempts, c);
    EnvelopesLatch(env, st, LoopBlocks(attempts, c), id, height);
  }

  // ---- Deliveries alone ----

  /** The settled tip after the deliveries. */
  function TipAfter(tip: Option<u64>, deliveries: seq<C.Delivery>): Option<u64> {
    if deliveries == [] then tip else Some(deliveries[|deliveries| - 1].settledTip)
  }

  /** The chain plane's promise about what it delivers, starting from a settled tip. */
  predicate WellFormed(tip: Option<u64>, deliveries: seq<C.Delivery>) {
    forall k :: 0 <= k < |deliveries| ==> EnvelopeOk(TipAfter(tip, deliveries[..k]), deliveries[k])
  }

  /** Between two sweeps the promise is about the deliveries alone: tips that do not recede and
      ranges above their own tip lose no settled payment. */
  lemma {:induction false} DeliveriesLatch(env: Env, st: System, n: nat, deliveries: seq<C.Delivery>, c: Context)
    requires Inv(st) && WellFormed(st.view.settledTip, deliveries)
    ensures var end := After(env, st, Flatten(Envelopes(n, deliveries, c)));
            Inv(end) && KeepsSettled(st, end) && end.view.settledTip == TipAfter(st.view.settledTip, deliveries)
    decreases |deliveries|
  {
    hide Next, Inv, SettledAt, StepsOf;
    if deliveries != [] {
      var init, last := deliveries[..|deliveries| - 1], deliveries[|deliveries| - 1];
      assert WellFormed(st.view.settledTip, init) by {
        forall k | 0 <= k < |init| ensures EnvelopeOk(TipAfter(st.view.settledTip, init[..k]), init[k]) {
          assert init[..k] == deliveries[..k] && init[k] == deliveries[k];
        }
      }
      DeliveriesLatch(env, st, n, init, c);
      var block := Envelope(last, c.clock(n + |C.Effects(init)| + 2));
      FlattenAppend(Envelopes(n, init, c), block);
      AfterConcat(env, st, Flatten(Envelopes(n, init, c)), StepsOf(block));
      EnvelopeKeeps(env, After(env, st, Flatten(Envelopes(n, init, c))), last, block.at);
    }
  }
}
