/** What a status lookup can report while the system moves: when a status that closes the
    stream is left after all, and when a lookup that reads the ledger and the prepared store
    one after the other agrees with a lookup at one instant. */
module Lookups {
  import opened Types
  import opened ChainStatus
  import opened Status
  import opened Prepare
  import opened Settle
  import opened Lifecycle

  // ---- Terminal statuses ----

  /** A payment that reads `Failed`, a terminal status, stops reading so exactly when another
      settle attempt on its prepared row succeeds. */
  lemma FailedLeftIff(env: Env, st: System, step: Step, id: PaymentId, depth: u32, now: u64, later: u64)
    requires Lookup(st, id, depth, now).status == Failed
    ensures Lookup(Next(env, st, step), id, depth, later).status != Failed <==>
              RecordingOf(st, step).Some? && RecordingOf(st, step).value.id == id
              && RecordingOf(st, step).value.outcome.IsSuccess()
  {
    hide Next, RecordingOf, LookupPaymentStatus;
    var next := Next(env, st, step);
    StatusMeaning(id, st.prepared, st.ledger, depth, st.view, now);
    StatusMeaning(id, next.prepared, next.ledger, depth, next.view, later);
    StepLedgerKeys(env, st, step);
    StepOutcome(env, st, step, id);
  }

  /** The step prepares a payment under this id: no replay answers it, and it can be drafted. */
  ghost predicate Prepares(env: Env, st: System, step: Step, id: PaymentId) {
    && step.Propose? && step.newId == id
    && (EffectiveKey(env, step.request).None?
        || FindKeyed(st.prepared, (step.jkt, EffectiveKey(env, step.request).value)).None?)
    && Draft(env, step.request, step.jkt, step.tip, step.newId, step.now).Ok?
  }

  lemma PreparedAfterStep(env: Env, st: System, step: Step, id: PaymentId)
    requires id !in st.prepared
    ensures id in Next(env, st, step).prepared <==> Prepares(env, st, step, id)
  {
    hide Draft;
  }

  lemma LedgerAfterPropose(env: Env, st: System, step: Step)
    requires step.Propose?
    ensures Next(env, st, step).ledger == st.ledger && RecordingOf(st, step).None?
  {
  }

  /** A recording is for a payment that is prepared. */
  lemma RecordingIsPrepared(st: System, step: Step)
    requires RecordingOf(st, step).Some?
    ensures RecordingOf(st, step).value.id in st.prepared
  {
  }

  /** `NeverIssued`, a terminal status too, is left exactly by preparing that id. */
  lemma NeverIssuedLeftIff(env: Env, st: System, step: Step, id: PaymentId, depth: u32, now: u64, later: u64)
    requires Lookup(st, id, depth, now).status == NeverIssued
    ensures Lookup(Next(env, st, step), id, depth, later).status != NeverIssued <==> Prepares(env, st, step, id)
  {
    hide Next, RecordingOf, Prepares, LookupPaymentStatus;
    var next := Next(env, st, step);
    StatusMeaning(id, st.prepared, st.ledger, depth, st.view, now);
    StatusMeaning(id, next.prepared, next.ledger, depth, next.view, later);
    PreparedAfterStep(env, st, step, id);
    StepLedgerKeys(env, st, step);
    if RecordingOf(st, step).Some? {
      RecordingIsPrepared(st, step);
    }
  }

  // ---- A lookup that straddles steps ----

  /** The ledger read and the prepared read fall on the two sides of the settle that moved the
      payment from one store to the other. */
  predicate Straddled(first: System, second: System, id: PaymentId) {
    id !in first.ledger && id in first.prepared && id !in second.prepared && id in second.ledger
  }

  /** A payment that has left both stores never comes back. */
  lemma GoneStep(env: Env, st: System, step: Step, id: PaymentId)
    requires Enabled(st, step) && id in st.issued && id !in st.prepared && id !in st.ledger
    ensures var next := Next(env, st, step); id in next.issued && id !in next.prepared && id !in next.ledger
  {
    hide Next, RecordingOf, Prepares;
    IssuedKept(env, st, step, id);
    PreparedAfterStep(env, st, step, id);
    assert !Prepares(env, st, step, id) by { IssuedNotFresh(env, st, step, id); }
    StepLedgerKeys(env, st, step);
    if RecordingOf(st, step).Some? {
      RecordingIsPrepared(st, step);
    }
  }

  lemma IssuedNotFresh(env: Env, st: System, step: Step, id: PaymentId)
    requires Enabled(st, step) && id in st.issued
    ensures !Prepares(env, st, step, id)
  {
  }

  lemma {:induction false} GoneForever(env: Env, steps: seq<Step>, k: nat, j: nat, id: PaymentId)
    requires ValidRun(env, steps) && k <= j <= |steps|
    requires var st := Run(env, steps, k); id in st.issued && id !in st.prepared && id !in st.ledger
    ensures var st := Run(env, steps, j); id in st.issued && id !in st.prepared && id !in st.ledger
    decreases j
  {
    hide Next, Enabled;
    if k < j {
      GoneForever(env, steps, k, j - 1, id);
      GoneStep(env, Run(env, steps, j - 1), steps[j - 1], id);
    }
  }

  lemma {:induction false} IssuedForever(env: Env, steps: seq<Step>, i: nat, j: nat, id: PaymentId)
    requires ValidRun(env, steps) && i <= j <= |steps| && id in Run(env, steps, i).issued
    ensures id in Run(env, steps, j).issued && Run(env, steps, j).issued[id] == Run(env, steps, i).issued[id]
    decreases j
  {
    hide Next, Enabled;
    if i < j {
      IssuedForever(env, steps, i, j - 1, id);
      IssuedKept(env, Run(env, steps, j - 1), steps[j - 1], id);
    }
  }

  /** What a prepared row held at one time, it held whenever it was prepared. */
  lemma PreparedRowsAgree(env: Env, steps: seq<Step>, i: nat, j: nat, id: PaymentId)
    requires ValidRun(env, steps) && i <= j <= |steps|
    requires id in Run(env, steps, i).prepared && id in Run(env, steps, j).prepared
    ensures Run(env, steps, i).prepared[id] == Run(env, steps, j).prepared[id]
  {
    hide Run, ValidRun, LedgerInv, JobsInv, UniqueKeys;
    Reachable(env, steps, i);
    Reachable(env, steps, j);
    IssuedForever(env, steps, i, j, id);
  }

  /** A payment prepared by step `j` and not by step `i` was, in between, prepared and not yet
      on the ledger. */
  lemma {:induction false} PreparedFresh(env: Env, steps: seq<Step>, i: nat, j: nat, id: PaymentId) returns (k: nat)
    requires ValidRun(env, steps) && i <= j <= |steps|
    requires id !in Run(env, steps, i).prepared && id in Run(env, steps, j).prepared
    ensures i <= k <= j && id in Run(env, steps, k).prepared && id !in Run(env, steps, k).ledger
    decreases j
  {
    hide Next, Enabled, Inv, Prepares;
    var before, step := Run(env, steps, j - 1), steps[j - 1];
    if id in before.prepared {
      k := PreparedFresh(env, steps, i, j - 1, id);
    } else {
      k := j;
      PreparedAfterStep(env, before, step, id);
      Reachable(env, steps, j - 1);
      FreshNotOnLedger(env, before, step, id);
    }
  }

  lemma FreshNotOnLedger(env: Env, st: System, step: Step, id: PaymentId)
    requires Inv(st) && Enabled(st, step) && Prepares(env, st, step, id)
    ensures id !in Next(env, st, step).ledger
  {
    hide Next;
    LedgerAfterPropose(env, st, step);
  }

  /** The atomic lookup at step `k` says `s`. */
  ghost predicate SaidAt(env: Env, steps: seq<Step>, k: nat, id: PaymentId, depth: u32, view: View, now: u64, s: Snapshot)
    requires k <= |steps|
  {
    LookupPaymentStatus(id, Run(env, steps, k).prepared, Run(env, steps, k).ledger, depth, view, now) == s
  }

  /** A lookup that reads the ledger at step `i` and the prepared store at step `j` says what
      an atomic lookup says at some step in between, if and only if it does not straddle the
      settle that moved the payment. A straddling lookup reports `NeverIssued`. */
  lemma TwoReadLookupIff(env: Env, steps: seq<Step>, i: nat, j: nat, id: PaymentId, depth: u32, view: View, now: u64)
    requires ValidRun(env, steps) && i <= j <= |steps|
    ensures var a, b := Run(env, steps, i), Run(env, steps, j);
            var s := LookupPaymentStatus(id, b.prepared, a.ledger, depth, view, now);
            && ((exists k :: i <= k <= j && SaidAt(env, steps, k, id, depth, view, now, s)) <==> !Straddled(a, b, id))
            && (Straddled(a, b, id) ==> s.status == NeverIssued && s.StreamClosed())
  {
    hide Run, ValidRun;
    var a, b := Run(env, steps, i), Run(env, steps, j);
    var s := LookupPaymentStatus(id, b.prepared, a.ledger, depth, view, now);
    if Straddled(a, b, id) {
      forall k | i <= k <= j ensures !SaidAt(env, steps, k, id, depth, view, now, s) {
        AccountedFor(env, steps, i, k, j, id);
      }
    } else if id !in a.ledger && id in b.prepared {
      if id in a.prepared {
        PreparedRowsAgree(env, steps, i, j, id);
        assert SaidAt(env, steps, i, id, depth, view, now, s);
      } else {
        var k := PreparedFresh(env, steps, i, j, id);
        PreparedRowsAgree(env, steps, k, j, id);
        assert SaidAt(env, steps, k, id, depth, view, now, s);
      }
    } else if id in a.ledger || id !in a.prepared {
      assert SaidAt(env, steps, i, id, depth, view, now, s);
    } else {
      assert SaidAt(env, steps, j, id, depth, view, now, s);
    }
  }

  /** Between the two sides of a settle the payment is always in one of the stores. */
  lemma AccountedFor(env: Env, steps: seq<Step>, i: nat, k: nat, j: nat, id: PaymentId)
    requires ValidRun(env, steps) && i <= k <= j <= |steps|
    requires id in Run(env, steps, i).prepared && id in Run(env, steps, j).ledger
    ensures id in Run(env, steps, k).prepared || id in Run(env, steps, k).ledger
  {
    hide Run, ValidRun;
    Reachable(env, steps, i);
    IssuedForever(env, steps, i, k, id);
    if id !in Run(env, steps, k).prepared && id !in Run(env, steps, k).ledger {
      GoneForever(env, steps, k, j, id);
    }
  }
}
