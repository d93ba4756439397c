/** Idempotent prepare over whole runs, in terms of the key a request carries. Main results: a
    repeated non-blank key of one agent is answered with the first preparation as long as that
    is live; nothing else is ever answered with an earlier preparation. */
module Idempotency {
  import opened Types
  import opened Prepare
  import opened Lifecycle
  import opened Lookups

  /** The answer to a propose at step `k`. */
  ghost function Answer(
    env: Env, steps: seq<Step>, k: nat, request: PrepareRequest, jkt: string, tip: Result<u32, string>, newId: PaymentId, now: u64)
    : Result<Preparation, PrepareError>
    requires k <= |steps|
  {
    Proposed(env, Run(env, steps, k).prepared, request, jkt, tip, newId, now).1
  }

  /** Step `i` is a first-time propose with a non-blank key. */
  ghost predicate Opens(env: Env, steps: seq<Step>, i: nat, key: string) {
    && i < |steps| && steps[i].Propose? && steps[i].newId in Run(env, steps, i + 1).prepared
    && steps[i].request.idempotencyKey == Some(key) && !env.isBlank(key)
  }

  /** A first-time propose leaves a row with its agent and key, and was answered with it. */
  lemma OpensRow(env: Env, steps: seq<Step>, i: nat, key: string)
    requires ValidRun(env, steps) && Opens(env, steps, i, key)
    ensures var step := steps[i];
            var p := Run(env, steps, i + 1).prepared[step.newId];
            && p.jkt == step.jkt && p.idempotencyKey == Some(key)
            && Answer(env, steps, i, step.request, step.jkt, step.tip, step.newId, step.now) == Ok(p.preparation)
  {
    hide Draft;
    var st, step := Run(env, steps, i), steps[i];
    Reachable(env, steps, i);
    assert Enabled(st, step) && step.newId !in st.prepared;
    ProposeIff(env, st.prepared, step.request, step.jkt, step.tip, step.newId, step.now);
    assert Run(env, steps, i + 1).prepared == Proposed(env, st.prepared, step.request, step.jkt, step.tip, step.newId, step.now).0;
  }

  /** The same agent with the same key gets the same preparation, whatever else its request
      says, at every later step at which the row is live; and nothing is written. */
  lemma KeyReplays(
    env: Env, steps: seq<Step>, i: nat, j: nat, key: string, request: PrepareRequest, tip: Result<u32, string>,
    newId: PaymentId, now: u64)
    requires ValidRun(env, steps) && Opens(env, steps, i, key) && i < j <= |steps|
    requires steps[i].newId in Run(env, steps, j).prepared && newId !in Run(env, steps, j).issued
    requires request.idempotencyKey == Some(key)
    ensures var first := steps[i];
            && Answer(env, steps, j, request, first.jkt, tip, newId, now)
            == Answer(env, steps, i, first.request, first.jkt, first.tip, first.newId, first.now)
            && Next(env, Run(env, steps, j), Propose(request, first.jkt, tip, newId, now)) == Run(env, steps, j)
  {
    hide Run, Next, Proposed, Opens;
    assert steps[i].Propose? && i < |steps| && !env.isBlank(key) && steps[i].newId in Run(env, steps, i + 1).prepared by {
      OpensMeans(env, steps, i, key);
    }
    OpensRow(env, steps, i, key);
    PreparedRowsAgree(env, steps, i + 1, j, steps[i].newId);
    ProposeReplaysInRun(env, steps, j, steps[i].newId, request, tip, newId, now);
  }

  lemma OpensMeans(env: Env, steps: seq<Step>, i: nat, key: string)
    requires Opens(env, steps, i, key)
    ensures i < |steps| && steps[i].Propose? && steps[i].newId in Run(env, steps, i + 1).prepared && !env.isBlank(key)
  {
  }

  /** Every prepared row carries its own id. */
  lemma {:induction false} RowsCarryIds(env: Env, steps: seq<Step>, k: nat, id: PaymentId)
    requires ValidRun(env, steps) && k <= |steps| && id in Run(env, steps, k).prepared
    ensures Run(env, steps, k).prepared[id].preparation.paymentId == id
    decreases k
  {
    hide Next, Enabled, Inv, Prepares;
    var st, step := Run(env, steps, k - 1), steps[k - 1];
    if id in st.prepared {
      RowsCarryIds(env, steps, k - 1, id);
      PreparedRowsAgree(env, steps, k - 1, k, id);
    } else {
      PreparedAfterStep(env, st, step, id);
      Reachable(env, steps, k - 1);
      FreshRow(env, st, step, id);
    }
  }

  lemma FreshRow(env: Env, st: System, step: Step, id: PaymentId)
    requires Inv(st) && Enabled(st, step) && id !in st.prepared && Prepares(env, st, step, id)
    ensures id in Next(env, st, step).prepared && Next(env, st, step).prepared[id].preparation.paymentId == id
  {
    hide Draft;
    ProposeIff(env, st.prepared, step.request, step.jkt, step.tip, step.newId, step.now);
  }

  /** A propose is answered with the preparation of a live row only if it comes from the agent
      of that row and carries its key, and that key is not blank. */
  lemma KeysDoNotMix(
    env: Env, steps: seq<Step>, k: nat, id: PaymentId, request: PrepareRequest, jkt: string, tip: Result<u32, string>,
    newId: PaymentId, now: u64)
    requires ValidRun(env, steps) && k <= |steps|
    requires id in Run(env, steps, k).prepared && newId !in Run(env, steps, k).issued
    requires Answer(env, steps, k, request, jkt, tip, newId, now) == Ok(Run(env, steps, k).prepared[id].preparation)
    ensures var p := Run(env, steps, k).prepared[id];
            && p.jkt == jkt && p.idempotencyKey.Some? && request.idempotencyKey == p.idempotencyKey
            && !env.isBlank(p.idempotencyKey.value)
  {
    var st := Run(env, steps, k);
    Reachable(env, steps, k);
    RowsCarryIds(env, steps, k, id);
    hide Run, Proposed, Draft, JobsInv;
    ProposeIff(env, st.prepared, request, jkt, tip, newId, now);
    var other :| Earlier(env, st.prepared, request, jkt, other);
    RowsCarryIds(env, steps, k, other);
  }

  /** Without a key, or with a blank one, a propose never repeats an earlier preparation, and
      the row it writes has no key. */
  lemma BlankNeverReplays(
    env: Env, steps: seq<Step>, k: nat, request: PrepareRequest, jkt: string, tip: Result<u32, string>,
    newId: PaymentId, now: u64)
    requires ValidRun(env, steps) && k <= |steps| && newId !in Run(env, steps, k).issued
    requires request.idempotencyKey.None? || env.isBlank(request.idempotencyKey.value)
    ensures var (after, r) := Proposed(env, Run(env, steps, k).prepared, request, jkt, tip, newId, now);
            r.Ok? ==> r.value.paymentId == newId && newId in after && after[newId].idempotencyKey == None
  {
    var st := Run(env, steps, k);
    Reachable(env, steps, k);
    hide Run, Proposed, Draft, JobsInv;
    ProposeIff(env, st.prepared, request, jkt, tip, newId, now);
  }
}
