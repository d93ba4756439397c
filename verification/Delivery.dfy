/** Settlement reaches the client: the permanence of `settled` in the lifecycle discharges
    the condition under which the event stream cannot lose its close. */
module Delivery {
  import opened Types
  import opened ChainStatus
  import opened Prepare
  import opened Status
  import L = Lifecycle
  import opened Permanence
  import S = EventStream

  /** A snapshot that some lookup of the run produced from a view that settles `height` and
      from store reads at or after step `i`. */
  ghost predicate FromRun(env: Env, steps: seq<L.Step>, i: nat, id: PaymentId, depth: u32, height: u64, s: Snapshot) {
    exists view: View, p: nat, q: nat, now: u64 ::
      && view.IsSettledAt(height) && i <= p <= |steps| && i <= q <= |steps|
      && s == LookupPaymentStatus(id, L.Run(env, steps, q).prepared, L.Run(env, steps, p).ledger, depth, view, now)
  }

  /** Every lookup whose reads all fall on the safe steps after the settlement is one. */
  lemma LookupsAreFromRun(
    env: Env, steps: seq<L.Step>, i: nat, o: nat, p: nat, q: nat, id: PaymentId, depth: u32, now: u64, later: u64)
    requires SafeFrom(env, steps, i, id) && i <= o <= |steps| && i <= p <= |steps| && i <= q <= |steps|
    requires L.Lookup(L.Run(env, steps, i), id, depth, now).settled
    ensures L.Lookup(L.Run(env, steps, i), id, depth, now).minedHeight.Some?
    ensures FromRun(env, steps, i, id, depth, L.Lookup(L.Run(env, steps, i), id, depth, now).minedHeight.value,
                    LookupPaymentStatus(id, L.Run(env, steps, q).prepared, L.Run(env, steps, p).ledger, depth,
                                        L.Run(env, steps, o).view, later))
  {
    hide L.Run, L.Lookup, SafeFrom;
    LaterViewsSettle(env, steps, i, o, id, depth, now);
  }

  lemma LaterSnapshotsClose(
    env: Env, steps: seq<L.Step>, i: nat, id: PaymentId, depth: u32, now: u64, height: u64, s: Snapshot)
    requires i <= |steps| && SafeFrom(env, steps, i, id) && L.Lookup(L.Run(env, steps, i), id, depth, now).settled
    requires L.Lookup(L.Run(env, steps, i), id, depth, now).minedHeight == Some(height)
    requires FromRun(env, steps, i, id, depth, height, s)
    ensures s.settled && s.StreamClosed() && s.minedHeight == Some(height)
  {
    hide L.Run, L.Lookup, SafeFrom;
    var view: View, p: nat, q: nat, later: u64 :|
      && view.IsSettledAt(height) && i <= p <= |steps| && i <= q <= |steps|
      && s == LookupPaymentStatus(id, L.Run(env, steps, q).prepared, L.Run(env, steps, p).ledger, depth, view, later);
    SettledLatches(env, steps, i, p, q, id, depth, view, now, later);
  }

  /** Let a payment read settled at step `i` of a run whose steps are safe for it from then on.
      If a snapshot looked up since is published to a subscribed stream, and the stores answer
      only such snapshots from then on, the stream is closed once it has nothing left to
      deliver. Other publishes, from older views, do not matter. */
  lemma SettledStreamCloses(
    env: Env, steps: seq<L.Step>, i: nat, id: PaymentId, depth: u32, now: u64, height: u64,
    log: seq<Snapshot>, initial: Snapshot, store: Snapshot, actions: seq<S.Action>, n: nat, j: nat)
    requires i <= |steps| && SafeFrom(env, steps, i, id) && L.Lookup(L.Run(env, steps, i), id, depth, now).settled
    requires L.Lookup(L.Run(env, steps, i), id, depth, now).minedHeight == Some(height)
    requires n < j <= |actions| && actions[n].Publish? && FromRun(env, steps, i, id, depth, height, actions[n].snapshot)
    requires S.Run(S.Subscribed(log, initial, store), actions, n).channel.open
    requires FromRun(env, steps, i, id, depth, height, S.Run(S.Subscribed(log, initial, store), actions, n).store)
    requires forall k :: n <= k < |actions| && actions[k].Write? ==>
               FromRun(env, steps, i, id, depth, height, actions[k].snapshot)
    ensures var end := S.Run(S.Subscribed(log, initial, store), actions, j);
            S.Drained(end.stream, end.channel) ==> end.stream.closed
  {
    hide L.Run, L.Lookup, SafeFrom, FromRun, S.Run;
    var start := S.Subscribed(log, initial, store);
    LaterSnapshotsClose(env, steps, i, id, depth, now, height, actions[n].snapshot);
    LaterSnapshotsClose(env, steps, i, id, depth, now, height, S.Run(start, actions, n).store);
    forall k | n <= k < |actions| && actions[k].Write? ensures actions[k].snapshot.StreamClosed() {
      LaterSnapshotsClose(env, steps, i, id, depth, now, height, actions[k].snapshot);
    }
    S.NoLostClose(log, initial, store, actions, n, j);
  }
}
