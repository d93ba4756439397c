/** The probe / subscribe / re-read handshake of the events endpoint against concurrent
    writers, for one payment. A writer changes the stores, once or several times, and then
    publishes what it reads back; the background tasks first ask whether anyone is subscribed
    and otherwise skip. Store states are numbered. A lookup reads the ledger and then the
    prepared store, so a snapshot is a pair of such numbers.

    Main results, in every interleaving of any number of handlers and writers: every completed
    write is either in a subscriber's initial snapshot or in its part of the log, and the hub
    holds exactly that log. */
module Handshake {
  import opened Types
  import opened Status
  import opened EventHub

  type Version = nat
  type Agent = nat

  /** The store states of the two reads of a lookup. */
  datatype Reading = Reading(ledgerAt: Version, preparedAt: Version)
  {
    /** Both reads came after the write. */
    predicate Sees(version: Version) {
      version <= ledgerAt && version <= preparedAt
    }
  }

  datatype Handler =
    | Connecting
    | Refused                                       // the probe read the id as never issued
    | Probed
    | Attached(position: nat)                       // subscribed, not yet re-read
    | HalfRead(position: nat, ledgerAt: Version)    // has re-read the ledger
    | Streaming(position: nat, initial: Reading)    // re-read done, stream handed over
    | Gone
  {
    predicate Listening() {
      Attached? || HalfRead? || Streaming?
    }
  }

  datatype Writer =
    | Idle
    | Gated(version: Version)                       // wrote; will ask `has_subscribers` first
    | Cleared(version: Version)                     // wrote; will publish
    | HalfLoaded(version: Version, ledgerAt: Version)
    | Loaded(version: Version, snapshot: Reading)   // has read the snapshot to publish
    | Holding(version: Version, snapshot: Reading)  // has cloned the sender out of the registry

  /** `channel` is absent until the first subscribe; `found` records that some probe found the
      payment issued; `completed` holds the last version of every writer that has finished. */
  datatype Bus = Bus(
    version: Version,
    issued: bool,
    found: bool,
    channel: bool,
    log: seq<Reading>,
    handlers: map<Agent, Handler>,
    writers: map<Agent, Writer>,
    completed: set<Version>)

  /** A probe of an issued payment can still miss it, when its two reads straddle a settle. */
  datatype Action =
    | Issue
    | Connect(h: Agent)
    | Probe(h: Agent, straddles: bool)
    | Subscribe(h: Agent)
    | ReadLedger(h: Agent)
    | ReadPrepared(h: Agent)
    | Disconnect(h: Agent)
    | Write(w: Agent, gated: bool)
    | WriteAgain(w: Agent)
    | Gate(w: Agent)
    | LoadLedger(w: Agent)
    | LoadPrepared(w: Agent)
    | CloneSender(w: Agent)
    | Send(w: Agent)

  function Listeners(b: Bus): set<Agent> {
    set h | h in b.handlers && b.handlers[h].Listening()
  }

  predicate Subscribers(b: Bus) {
    exists h :: h in b.handlers && b.handlers[h].Listening()
  }

  function At(b: Bus, h: Agent): Handler {
    if h in b.handlers then b.handlers[h] else Gone
  }

  function Pc(b: Bus, w: Agent): Writer {
    if w in b.writers then b.writers[w] else Idle
  }

  function Finish(b: Bus, w: Agent, version: Version): Bus {
    b.(writers := b.writers[w := Idle], completed := b.completed + {version})
  }

  function Act(b: Bus, action: Action): Bus {
    match action
    case Issue => b.(issued := true)
    case Connect(h) => if h in b.handlers then b else b.(handlers := b.handlers[h := Connecting])
    case Probe(h, straddles) =>
      if !At(b, h).Connecting? then b
      else if b.issued && !straddles then b.(handlers := b.handlers[h := Probed], found := true)
      else b.(handlers := b.handlers[h := Refused])
    case Subscribe(h) =>
      if At(b, h).Probed? then b.(channel := true, handlers := b.handlers[h := Attached(|b.log|)]) else b
    case ReadLedger(h) =>
      if At(b, h).Attached? then b.(handlers := b.handlers[h := HalfRead(At(b, h).position, b.version)]) else b
    case ReadPrepared(h) =>
      if At(b, h).HalfRead?
      then b.(handlers := b.handlers[h := Streaming(At(b, h).position, Reading(At(b, h).ledgerAt, b.version))]) else b
    case Disconnect(h) => if h in b.handlers then b.(handlers := b.handlers[h := Gone]) else b
    case Write(w, gated) =>
      if !Pc(b, w).Idle? then b else
      var version := b.version + 1;
      b.(version := version, writers := b.writers[w := if gated then Gated(version) else Cleared(version)])
    case WriteAgain(w) =>
      var version := b.version + 1;
      if Pc(b, w).Gated? then b.(version := version, writers := b.writers[w := Gated(version)])
      else if Pc(b, w).Cleared? then b.(version := version, writers := b.writers[w := Cleared(version)])
      else b
    case Gate(w) =>
      if !Pc(b, w).Gated? then b
      else if Subscribers(b) then b.(writers := b.writers[w := Cleared(Pc(b, w).version)])
      else Finish(b, w, Pc(b, w).version)
    case LoadLedger(w) =>
      if Pc(b, w).Cleared? then b.(writers := b.writers[w := HalfLoaded(Pc(b, w).version, b.version)]) else b
    case LoadPrepared(w) =>
      if Pc(b, w).HalfLoaded?
      then b.(writers := b.writers[w := Loaded(Pc(b, w).version, Reading(Pc(b, w).ledgerAt, b.version))]) else b
    case CloneSender(w) =>
      if !Pc(b, w).Loaded? then b
      else if b.channel then b.(writers := b.writers[w := Holding(Pc(b, w).version, Pc(b, w).snapshot)])
      else Finish(b, w, Pc(b, w).version)
    case Send(w) =>
      if !Pc(b, w).Holding? then b
      else
        var sent := if Subscribers(b) then b.(log := b.log + [Pc(b, w).snapshot]) else b;
        Finish(sent, w, Pc(b, w).version)
  }

  const INITIAL := Bus(0, false, false, false, [], map[], map[], {})

  function Run(actions: seq<Action>, k: nat): Bus
    requires k <= |actions|
  {
    if k == 0 then INITIAL else Act(Run(actions, k - 1), actions[k - 1])
  }

  // ---- Coverage ----

  /** The subscriber sees the write: in its initial snapshot or at or after its position. A
      subscriber that has yet to re-read will see everything written so far. */
  ghost predicate Covered(log: seq<Reading>, h: Handler, version: Version) {
    && (h.Streaming? ==> h.initial.Sees(version) || InLog(log, h.position, version))
    && (h.HalfRead? ==> version <= h.ledgerAt || InLog(log, h.position, version))
  }

  ghost predicate InLog(log: seq<Reading>, position: nat, version: Version) {
    exists k :: position <= k < |log| && log[k].Sees(version)
  }

  ghost predicate HandlerOk(b: Bus, h: Handler) {
    && (h.Listening() ==> b.channel && h.position <= |b.log|)
    && (h.Probed? || h.Listening() ==> b.found)
    && (h.HalfRead? ==> h.ledgerAt <= b.version)
  }

  predicate WriterOk(b: Bus, w: Writer) {
    && (!w.Idle? ==> w.version <= b.version)
    && (w.HalfLoaded? ==> w.version <= w.ledgerAt)
    && (w.Loaded? || w.Holding? ==> w.snapshot.Sees(w.version))
  }

  ghost predicate Inv(b: Bus) {
    && (forall h :: h in b.handlers ==> HandlerOk(b, b.handlers[h]))
    && (forall w :: w in b.writers ==> WriterOk(b, b.writers[w]))
    && (forall v :: v in b.completed ==> v <= b.version)
    && (forall h, v :: h in b.handlers && v in b.completed ==> Covered(b.log, b.handlers[h], v))
    && (b.channel ==> b.found)
    && (b.found ==> b.issued)
  }

  lemma CoverageGrows(log: seq<Reading>, h: Handler, v: Version, snapshot: Reading)
    requires Covered(log, h, v)
    ensures Covered(log + [snapshot], h, v)
  {
    if (h.Streaming? || h.HalfRead?) && InLog(log, h.position, v) {
      var k :| h.position <= k < |log| && log[k].Sees(v);
      assert (log + [snapshot])[k] == log[k];
    }
  }

  lemma SendCovers(b: Bus, w: Agent)
    requires Inv(b) && Pc(b, w).Holding?
    ensures Inv(Act(b, Send(w)))
  {
    var pc := b.writers[w];
    var next := Act(b, Send(w));
    assert WriterOk(b, pc);
    forall h, v | h in next.handlers && v in next.completed
      ensures Covered(next.log, next.handlers[h], v)
    {
      assert HandlerOk(b, b.handlers[h]);
      if Subscribers(b) {
        if v in b.completed {
          CoverageGrows(b.log, b.handlers[h], v, pc.snapshot);
        } else {
          assert next.log[|b.log|] == pc.snapshot;
        }
      }
    }
    forall h | h in next.handlers ensures HandlerOk(next, next.handlers[h]) {
      assert HandlerOk(b, b.handlers[h]);
    }
  }

  /** A writer that ends without sending does so while nobody is attached. */
  lemma SkipCovers(b: Bus, action: Action)
    requires Inv(b) && (action.Gate? || action.CloneSender?)
    ensures Inv(Act(b, action))
  {
    var next := Act(b, action);
    assert action.w in b.writers ==> WriterOk(b, b.writers[action.w]);
    forall h, v | h in next.handlers && v in next.completed
      ensures Covered(next.log, next.handlers[h], v)
    {
      assert HandlerOk(b, b.handlers[h]);
      if v in b.completed {
        assert Covered(b.log, b.handlers[h], v);
      }
    }
  }

  /** A re-read sees every write completed before it. */
  lemma ReadStep(b: Bus, action: Action)
    requires Inv(b) && (action.ReadLedger? || action.ReadPrepared?)
    ensures Inv(Act(b, action))
  {
    hide InLog;
    assert HandlerOk(b, At(b, action.h));
  }

  /** A handler that is not yet reading has nothing to cover. */
  lemma HandlerStep(b: Bus, action: Action)
    requires Inv(b)
    requires action.Issue? || action.Connect? || action.Probe? || action.Subscribe? || action.Disconnect?
    ensures Inv(Act(b, action))
  {
    hide InLog;
  }

  lemma WriterStep(b: Bus, action: Action)
    requires Inv(b) && (action.Write? || action.WriteAgain? || action.LoadLedger? || action.LoadPrepared?)
    ensures Inv(Act(b, action))
  {
    hide Covered;
    assert action.w in b.writers ==> WriterOk(b, b.writers[action.w]);
  }

  lemma {:induction false} Reachable(actions: seq<Action>, k: nat)
    requires k <= |actions|
    ensures Inv(Run(actions, k))
    decreases k
  {
    hide Act, Inv;
    if k > 0 {
      Reachable(actions, k - 1);
      StepKeepsInv(Run(actions, k - 1), actions[k - 1]);
    } else {
      assert Inv(INITIAL) by { InitialInv(); }
    }
  }

  lemma InitialInv()
    ensures Inv(INITIAL)
  {
  }

  lemma StepKeepsInv(b: Bus, action: Action)
    requires Inv(b)
    ensures Inv(Act(b, action))
  {
    hide Inv;
    match action {
      case Gate(_) => SkipCovers(b, action);
      case CloneSender(_) => SkipCovers(b, action);
      case Send(w) =>
        if Pc(b, w).Holding? {
          SendCovers(b, w);
        }
      case Write(_, _) => WriterStep(b, action);
      case WriteAgain(_) => WriterStep(b, action);
      case LoadLedger(_) => WriterStep(b, action);
      case LoadPrepared(_) => WriterStep(b, action);
      case ReadLedger(_) => ReadStep(b, action);
      case ReadPrepared(_) => ReadStep(b, action);
      case _ => HandlerStep(b, action);
    }
  }

  /** Every write of a finished writer reaches every stream that is open: both reads behind the
      initial snapshot came after it, or both reads behind some snapshot in its part of the log. */
  lemma HandshakeCovers(actions: seq<Action>, k: nat, h: Agent, last: Version, version: Version)
    requires k <= |actions| && h in Run(actions, k).handlers && Run(actions, k).handlers[h].Streaming?
    requires last in Run(actions, k).completed && version <= last
    ensures var b := Run(actions, k);
            var s := b.handlers[h];
            s.initial.Sees(version) || exists i :: s.position <= i < |b.log| && b.log[i].Sees(version)
  {
    Reachable(actions, k);
    var b := Run(actions, k);
    hide Run;
    assert Covered(b.log, b.handlers[h], last);
    if InLog(b.log, b.handlers[h].position, last) {
      var i :| b.handlers[h].position <= i < |b.log| && b.log[i].Sees(last);
      assert b.log[i].Sees(version);
    }
  }

  /** The registry holds a channel only for a payment some probe found issued. */
  lemma RegistryBounded(actions: seq<Action>, k: nat)
    requires k <= |actions| && Run(actions, k).channel
    ensures exists i :: 0 <= i < k && actions[i].Probe? && !actions[i].straddles && Run(actions, i).issued
                        && At(Run(actions, i), actions[i].h).Connecting?
  {
    Reachable(actions, k);
    FoundByProbe(actions, k);
  }

  lemma {:induction false} FoundByProbe(actions: seq<Action>, k: nat)
    requires k <= |actions| && Run(actions, k).found
    ensures exists i :: 0 <= i < k && actions[i].Probe? && !actions[i].straddles && Run(actions, i).issued
                        && At(Run(actions, i), actions[i].h).Connecting?
    decreases k
  {
    hide Act;
    if Run(actions, k - 1).found {
      FoundByProbe(actions, k - 1);
    } else {
      FoundNow(Run(actions, k - 1), actions[k - 1]);
    }
  }

  lemma FoundNow(b: Bus, action: Action)
    requires !b.found && Act(b, action).found
    ensures action.Probe? && !action.straddles && b.issued && At(b, action.h).Connecting?
  {
  }

  // ---- The hub ----

  /** What an action does to the hub; `show` is the snapshot a reading projects to. */
  function HubAct(channels: Channels, id: PaymentId, b: Bus, action: Action, show: Reading -> Snapshot): Channels {
    match action
    case Subscribe(h) => if At(b, h).Probed? then WithSubscriber(channels, id) else channels
    case Disconnect(h) => if At(b, h).Listening() then WithoutSubscriber(channels, id) else channels
    case Send(w) => if Pc(b, w).Holding? then Published(channels, id, show(Pc(b, w).snapshot)) else channels
    case _ => channels
  }

  function HubRun(start: Channels, id: PaymentId, actions: seq<Action>, k: nat, show: Reading -> Snapshot): Channels
    requires k <= |actions|
  {
    if k == 0 then start else HubAct(HubRun(start, id, actions, k - 1, show), id, Run(actions, k - 1), actions[k - 1], show)
  }

  /** The hub's slot is the bus: same channel, same log, one receiver per listening handler. */
  ghost predicate Mirrors(channels: Channels, id: PaymentId, b: Bus, show: Reading -> Snapshot) {
    var slot := SlotOf(channels, id);
    && (b.channel <==> id in channels)
    && |slot.log| == |b.log| && (forall k :: 0 <= k < |b.log| ==> slot.log[k] == show(b.log[k]))
    && slot.receivers == |Listeners(b)|
  }

  lemma ListenersAfter(b: Bus, action: Action)
    ensures var after := Listeners(Act(b, action));
            && (action.Subscribe? && At(b, action.h).Probed? ==>
                  action.h !in Listeners(b) && after == Listeners(b) + {action.h})
            && (action.Disconnect? && At(b, action.h).Listening() ==>
                  action.h in Listeners(b) && after == Listeners(b) - {action.h})
            && (!(action.Subscribe? && At(b, action.h).Probed?) && !(action.Disconnect? && At(b, action.h).Listening()) ==>
                  after == Listeners(b))
  {
  }

  /** `has_subscribers` answers for the handlers that listen. */
  lemma HubCounts(channels: Channels, id: PaymentId, b: Bus, show: Reading -> Snapshot)
    requires Mirrors(channels, id, b, show)
    ensures SlotOf(channels, id).receivers > 0 <==> Subscribers(b)
  {
    if Subscribers(b) {
      var h :| h in b.handlers && b.handlers[h].Listening();
      assert h in Listeners(b);
    } else {
      assert Listeners(b) == {};
    }
  }

  lemma HubStep(channels: Channels, id: PaymentId, b: Bus, action: Action, show: Reading -> Snapshot)
    requires Mirrors(channels, id, b, show)
    ensures Mirrors(HubAct(channels, id, b, action, show), id, Act(b, action), show)
    ensures action.Subscribe? && At(b, action.h).Probed? ==>
              At(Act(b, action), action.h) == Attached(|SlotOf(channels, id).log|)
  {
    hide Listeners;
    ListenersAfter(b, action);
    HubCounts(channels, id, b, show);
  }

  /** Over every interleaving the hub's methods keep the hub the mirror of the bus, and touch no
      other payment's channel. */
  lemma {:induction false} HubMirrors(
    start: Channels, id: PaymentId, actions: seq<Action>, k: nat, show: Reading -> Snapshot, other: PaymentId)
    requires id !in start && k <= |actions| && other != id
    ensures Mirrors(HubRun(start, id, actions, k, show), id, Run(actions, k), show)
    ensures SlotOf(HubRun(start, id, actions, k, show), other) == SlotOf(start, other)
    decreases k
  {
    hide Mirrors, Act;
    if k > 0 {
      HubMirrors(start, id, actions, k - 1, show, other);
      HubStep(HubRun(start, id, actions, k - 1, show), id, Run(actions, k - 1), actions[k - 1], show);
    } else {
      assert Mirrors(start, id, INITIAL, show) by { EmptyMirrors(start, id, show); }
    }
  }

  lemma EmptyMirrors(start: Channels, id: PaymentId, show: Reading -> Snapshot)
    requires id !in start
    ensures Mirrors(start, id, INITIAL, show)
  {
    assert Listeners(INITIAL) == {};
  }
}
