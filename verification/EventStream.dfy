/** The SSE body stream: initial snapshot, then a lossy bounded broadcast channel with a
    re-read of the stores after every lag, closing after the first closing snapshot.
    Main results, over every interleaving of publishes, store writes, re-reads and polls:
    a closing snapshot is never lost, it is the last event, and lag is always answered. */
module EventStream {
  import opened Types
  import opened Status

  const CHANNEL_CAPACITY := 16

  /** A broadcast channel: everything ever sent, of which the last slots are retained. */
  datatype Channel = Channel(log: seq<Snapshot>, open: bool)
  {
    function Oldest(): nat {
      if |log| > CHANNEL_CAPACITY then |log| - CHANNEL_CAPACITY else 0
    }
  }

  datatype Origin = Initial | Tail | ReRead

  datatype Event = SnapshotEvent(snapshot: Snapshot, origin: Origin) | LagEvent | ResyncFailedEvent
  {
    predicate Closing() {
      ResyncFailedEvent? || (SnapshotEvent? && snapshot.StreamClosed())
    }
  }

  datatype Poll = Pending | Ended | Ready(event: Event)

  /** What the re-read future says when it is polled. */
  datatype Reply = NotReady | Answered(snapshot: Snapshot) | Failed

  /** `next` is the receiver's position in the channel log. */
  datatype State = State(head: Option<Snapshot>, next: nat, resyncing: bool, closed: bool)

  function Polled(s: State, channel: Channel, reply: Reply): (State, Poll) {
    if s.closed then (s, Ended)
    else if s.head.Some? then
      (s.(head := None, closed := s.head.value.StreamClosed()), Ready(SnapshotEvent(s.head.value, Initial)))
    else if s.resyncing then
      match reply
      case NotReady => (s, Pending)
      case Answered(snapshot) =>
        (s.(resyncing := false, closed := snapshot.StreamClosed()), Ready(SnapshotEvent(snapshot, ReRead)))
      case Failed => (s.(resyncing := false, closed := true), Ready(ResyncFailedEvent))
    else if s.next < channel.Oldest() then
      (s.(next := channel.Oldest(), resyncing := true), Ready(LagEvent))
    else if s.next < |channel.log| then
      var snapshot := channel.log[s.next];
      (s.(next := s.next + 1, closed := snapshot.StreamClosed()), Ready(SnapshotEvent(snapshot, Tail)))
    else if channel.open then (s, Pending)
    else (s.(closed := true), Ended)
  }

  class EventStream {
    var head: Option<Snapshot>
    var next: nat
    var resyncing: bool
    var closed: bool

    constructor (initial: Snapshot, position: nat)
      ensures AsState() == State(Some(initial), position, false, false)
    {
      head, next, resyncing, closed := Some(initial), position, false, false;
    }

    function AsState(): State
      reads this
    {
      State(head, next, resyncing, closed)
    }

    method PollNext(channel: Channel, reply: Reply) returns (poll: Poll)
      modifies this
      ensures (AsState(), poll) == Polled(old(AsState()), channel, reply)
    {
      if closed {
        return Ended;
      }
      if head.Some? {
        var initial := head.value;
        head := None;
        if initial.StreamClosed() {
          closed := true;
        }
        return Ready(SnapshotEvent(initial, Initial));
      }
      if resyncing {
        match reply {
          case NotReady =>
            return Pending;
          case Answered(snapshot) =>
            resyncing := false;
            if snapshot.StreamClosed() {
              closed := true;
            }
            return Ready(SnapshotEvent(snapshot, ReRead));
          case Failed =>
            resyncing := false;
            closed := true;
            return Ready(ResyncFailedEvent);
        }
      }
      if next < channel.Oldest() {
        next := channel.Oldest();
        resyncing := true;
        return Ready(LagEvent);
      }
      if next < |channel.log| {
        var snapshot := channel.log[next];
        next := next + 1;
        if snapshot.StreamClosed() {
          closed := true;
        }
        return Ready(SnapshotEvent(snapshot, Tail));
      }
      if channel.open {
        return Pending;
      }
      closed := true;
      return Ended;
    }
  }

  // ---- The stream among its publishers ----

  /** `store` is the projection the stores would answer now; `reread` is what the re-read in
      flight has read so far; `out` is everything the client received, and `taken` the log
      positions of the snapshots it received from the channel. */
  datatype Sse = Sse(
    stream: State, channel: Channel, store: Snapshot, reread: Option<Snapshot>, out: seq<Event>, taken: seq<nat>)

  datatype Action =
    | Publish(snapshot: Snapshot)
    | Write(snapshot: Snapshot)
    | Read
    | PollStream(fails: bool)
    | DropSenders

  predicate FromChannel(event: Event) {
    event.SnapshotEvent? && event.origin == Tail
  }

  predicate IsReRead(event: Event) {
    event.SnapshotEvent? && event.origin == ReRead
  }

  function ReplyOf(st: Sse, fails: bool): Reply {
    if fails then Reply.Failed else if st.reread.Some? then Answered(st.reread.value) else NotReady
  }

  function Act(st: Sse, action: Action): Sse {
    match action
    case Publish(snapshot) => if st.channel.open then st.(channel := st.channel.(log := st.channel.log + [snapshot])) else st
    case Write(snapshot) => st.(store := snapshot)
    case Read => if st.stream.resyncing && st.reread.None? then st.(reread := Some(st.store)) else st
    case PollStream(fails) =>
      var (stream, poll) := Polled(st.stream, st.channel, ReplyOf(st, fails));
      st.(stream := stream, reread := if stream.resyncing && st.stream.resyncing then st.reread else None,
          out := if poll.Ready? then st.out + [poll.event] else st.out,
          taken := if poll.Ready? && FromChannel(poll.event) then st.taken + [st.stream.next] else st.taken)
    case DropSenders => st.(channel := st.channel.(open := false))
  }

  /** A stream that subscribed when the channel held `log` and then read `initial`. */
  function Subscribed(log: seq<Snapshot>, initial: Snapshot, store: Snapshot): Sse {
    Sse(State(Some(initial), |log|, false, false), Channel(log, true), store, None, [], [])
  }

  function Run(start: Sse, actions: seq<Action>, k: nat): Sse
    requires k <= |actions|
  {
    if k == 0 then start else Act(Run(start, actions, k - 1), actions[k - 1])
  }

  // ---- Shape of the output ----

  function Tails(out: seq<Event>): seq<Snapshot> {
    if out == [] then [] else
    var last := out[|out| - 1];
    Tails(out[..|out| - 1]) + if FromChannel(last) then [last.snapshot] else []
  }

  ghost predicate ClosesLast(out: seq<Event>) {
    forall i :: 0 <= i < |out| - 1 ==> !out[i].Closing()
  }

  ghost predicate LagAnswered(out: seq<Event>) {
    forall i :: 0 < i < |out| ==> (out[i - 1] == LagEvent <==> out[i] == ResyncFailedEvent || IsReRead(out[i]))
  }

  predicate IsInitial(event: Event) {
    event.SnapshotEvent? && event.origin == Initial
  }

  ghost predicate InitialFirst(out: seq<Event>) {
    forall i :: 0 <= i < |out| ==> (i == 0 <==> IsInitial(out[i]))
  }

  /** A closing event is the last one; lag is followed by a re-read snapshot or a failure, and
      re-reads follow nothing else; the initial snapshot comes first and only once. */
  ghost predicate WellShaped(out: seq<Event>) {
    ClosesLast(out) && LagAnswered(out) && InitialFirst(out)
  }

  ghost predicate Shape(st: Sse, from: nat) {
    var s, out := st.stream, st.out;
    && WellShaped(out)
    && (s.head.Some? <==> out == [])
    && (s.head.Some? ==> !s.resyncing && !s.closed)
    && (out != [] ==> (s.resyncing <==> out[|out| - 1] == LagEvent))
    && (out != [] && out[|out| - 1].Closing() ==> s.closed)
    && (s.closed ==> !st.channel.open || (out != [] && out[|out| - 1].Closing()))
    && (s.closed ==> !s.resyncing)
    && (st.reread.Some? ==> s.resyncing)
    && from <= s.next <= |st.channel.log|
    && (LagEvent !in out ==> Tails(out) == st.channel.log[from..s.next])
  }

  lemma ClosesLastAppend(out: seq<Event>, event: Event)
    requires ClosesLast(out) && (out != [] ==> !out[|out| - 1].Closing())
    ensures ClosesLast(out + [event])
  {
  }

  lemma LagAnsweredAppend(out: seq<Event>, event: Event)
    requires LagAnswered(out)
    requires out != [] ==> (out[|out| - 1] == LagEvent <==> event == ResyncFailedEvent || IsReRead(event))
    ensures LagAnswered(out + [event])
  {
    hide IsReRead;
  }

  lemma InitialFirstAppend(out: seq<Event>, event: Event)
    requires InitialFirst(out) && (out == [] <==> IsInitial(event))
    ensures InitialFirst(out + [event])
  {
    hide IsInitial;
  }

  lemma WellShapedAppend(out: seq<Event>, event: Event)
    requires WellShaped(out)
    requires out != [] ==>
               && !out[|out| - 1].Closing()
               && (out[|out| - 1] == LagEvent <==> event == ResyncFailedEvent || IsReRead(event))
    requires out == [] <==> IsInitial(event)
    ensures WellShaped(out + [event])
    ensures Tails(out + [event]) == Tails(out) + if FromChannel(event) then [event.snapshot] else []
  {
    hide ClosesLast, LagAnswered, InitialFirst, Tails, FromChannel;
    ClosesLastAppend(out, event);
    LagAnsweredAppend(out, event);
    InitialFirstAppend(out, event);
    TailsAppend(out, event);
  }

  lemma PollShape(st: Sse, fails: bool, from: nat)
    requires Shape(st, from)
    ensures Shape(Act(st, PollStream(fails)), from)
  {
    hide WellShaped, Tails;
    var next := Act(st, PollStream(fails));
    var (_, poll) := Polled(st.stream, st.channel, ReplyOf(st, fails));
    if poll.Ready? {
      WellShapedAppend(st.out, poll.event);
      assert next.out[|next.out| - 1] == poll.event;
    }
  }

  lemma ShapeStep(st: Sse, action: Action, from: nat)
    requires Shape(st, from)
    ensures Shape(Act(st, action), from)
  {
    if action.PollStream? {
      PollShape(st, action.fails, from);
    } else {
      hide WellShaped, Tails;
      var next := Act(st, action);
      assert next.channel.log[from..st.stream.next] == st.channel.log[from..st.stream.next];
    }
  }

  /** In every interleaving the output is well shaped, without lag the client has received every
      publish since the subscribe, in order, and the stream closes with a closing event or when
      the senders are gone, and not otherwise. */
  lemma {:induction false} OutputShape(log: seq<Snapshot>, initial: Snapshot, store: Snapshot, actions: seq<Action>, k: nat)
    requires k <= |actions|
    ensures Shape(Run(Subscribed(log, initial, store), actions, k), |log|)
    decreases k
  {
    var start := Subscribed(log, initial, store);
    if k > 0 {
      OutputShape(log, initial, store, actions, k - 1);
      ShapeStep(Run(start, actions, k - 1), actions[k - 1], |log|);
    } else {
      assert log[|log|..|log|] == [];
    }
  }

  // ---- What the events say ----

  /** The client's first event is the snapshot the handshake read, as it was read. */
  lemma {:induction false} InitialIsDelivered(
    log: seq<Snapshot>, initial: Snapshot, store: Snapshot, actions: seq<Action>, k: nat)
    requires k <= |actions|
    ensures var st := Run(Subscribed(log, initial, store), actions, k);
            if st.out == [] then st.stream.head == Some(initial) else st.out[0] == SnapshotEvent(initial, Initial)
    decreases k
  {
    if k > 0 {
      InitialIsDelivered(log, initial, store, actions, k - 1);
      OutputShape(log, initial, store, actions, k - 1);
    }
  }

  /** A `Read` before action `k`, made while event `n` was the next to deliver, found `s` in the
      stores. */
  ghost predicate ReadFor(start: Sse, actions: seq<Action>, k: nat, n: nat, s: Snapshot)
    requires k <= |actions|
  {
    exists j: nat :: j < k && actions[j].Read? && Run(start, actions, j).store == s && |Run(start, actions, j).out| == n
  }

  /** Every re-read event is the store state at a read made after its lag event and before its
      delivery: when it was made, the lag event was the last one delivered. */
  lemma {:induction false} ReReadsAreStore(
    log: seq<Snapshot>, initial: Snapshot, store: Snapshot, actions: seq<Action>, k: nat)
    requires k <= |actions|
    ensures var start := Subscribed(log, initial, store);
            var st := Run(start, actions, k);
            && (st.reread.Some? ==> ReadFor(start, actions, k, |st.out|, st.reread.value))
            && (forall n :: 0 <= n < |st.out| && IsReRead(st.out[n]) ==>
                  n > 0 && st.out[n - 1] == LagEvent && ReadFor(start, actions, k, n, st.out[n].snapshot))
    decreases k
  {
    hide Run, ReadFor;
    var start := Subscribed(log, initial, store);
    ReReadsWereRead(log, initial, store, actions, k);
    OutputShape(log, initial, store, actions, k);
    hide Shape;
    LagComesFirst(Run(start, actions, k), |log|);
  }

  lemma LagComesFirst(st: Sse, from: nat)
    requires Shape(st, from)
    ensures forall n :: 0 <= n < |st.out| && IsReRead(st.out[n]) ==> n > 0 && st.out[n - 1] == LagEvent
  {
    hide Tails;
    forall n | 0 <= n < |st.out| && IsReRead(st.out[n]) ensures n > 0 && st.out[n - 1] == LagEvent {
      assert n == 0 <==> IsInitial(st.out[n]);
    }
  }

  lemma {:induction false} ReReadsWereRead(
    log: seq<Snapshot>, initial: Snapshot, store: Snapshot, actions: seq<Action>, k: nat)
    requires k <= |actions|
    ensures var start := Subscribed(log, initial, store);
            var st := Run(start, actions, k);
            && (st.reread.Some? ==> ReadFor(start, actions, k, |st.out|, st.reread.value))
            && (forall n :: 0 <= n < |st.out| && IsReRead(st.out[n]) ==> ReadFor(start, actions, k, n, st.out[n].snapshot))
    decreases k
  {
    hide ReadFor, Act, Shape;
    var start := Subscribed(log, initial, store);
    if k > 0 {
      var before, st := Run(start, actions, k - 1), Run(start, actions, k);
      ReReadsWereRead(log, initial, store, actions, k - 1);
      OutputShape(log, initial, store, actions, k - 1);
      StepReads(before, actions[k - 1], |log|);
      if st.reread.Some? {
        ReadsAccumulate(start, actions, k, |st.out|, st.reread.value);
      }
      forall n | 0 <= n < |st.out| && IsReRead(st.out[n]) ensures ReadFor(start, actions, k, n, st.out[n].snapshot) {
        assert n < |before.out| ==> st.out[n] == before.out[n];
        ReadsAccumulate(start, actions, k, n, st.out[n].snapshot);
      }
    }
  }

  lemma ReadsAccumulate(start: Sse, actions: seq<Action>, k: nat, n: nat, s: Snapshot)
    requires 0 < k <= |actions|
    requires ReadFor(start, actions, k - 1, n, s)
          || (actions[k - 1].Read? && Run(start, actions, k - 1).store == s && |Run(start, actions, k - 1).out| == n)
    ensures ReadFor(start, actions, k, n, s)
  {
    hide Run;
    if ReadFor(start, actions, k - 1, n, s) {
      var j: nat :| j < k - 1 && actions[j].Read? && Run(start, actions, j).store == s && |Run(start, actions, j).out| == n;
    }
  }

  /** One action: the answer of a read is what the stores hold, and a re-read event delivers
      the answer. */
  lemma StepReads(st: Sse, action: Action, from: nat)
    requires Shape(st, from)
    ensures var next := Act(st, action);
            && |st.out| <= |next.out| <= |st.out| + 1 && next.out[..|st.out|] == st.out
            && (|next.out| > |st.out| && IsReRead(next.out[|st.out|]) ==> st.reread == Some(next.out[|st.out|].snapshot))
            && (next.reread.Some? ==>
                  && next.out == st.out
                  && (next.reread == st.reread || (action.Read? && next.reread.value == st.store)))
  {
    hide WellShaped, Tails;
  }

  // ---- Nothing is skipped that was still retained ----

  /** The client received exactly the log entries at `taken`, in order; every other entry the
      receiver has passed was evicted from the channel. */
  ghost predicate Faithful(st: Sse, from: nat) {
    && |Tails(st.out)| == |st.taken|
    && from <= st.stream.next <= |st.channel.log|
    && (forall k :: 0 <= k < |st.taken| ==>
          from <= st.taken[k] < st.stream.next && Tails(st.out)[k] == st.channel.log[st.taken[k]])
    && (forall k, m :: 0 <= k < m < |st.taken| ==> st.taken[k] < st.taken[m])
    && (forall i :: from <= i < st.stream.next ==> i in st.taken || i + 16 < |st.channel.log|)
  }

  lemma TailsAppend(out: seq<Event>, event: Event)
    ensures Tails(out + [event]) == Tails(out) + if FromChannel(event) then [event.snapshot] else []
  {
    assert (out + [event])[..|out + [event]| - 1] == out;
  }

  lemma FaithfulPoll(st: Sse, fails: bool, from: nat)
    requires Faithful(st, from)
    ensures Faithful(Act(st, PollStream(fails)), from)
  {
    hide Tails;
    var next := Act(st, PollStream(fails));
    var (_, poll) := Polled(st.stream, st.channel, ReplyOf(st, fails));
    if poll.Ready? {
      TailsAppend(st.out, poll.event);
      if FromChannel(poll.event) {
        assert next.taken == st.taken + [st.stream.next] && next.stream.next == st.stream.next + 1;
        forall i | from <= i < next.stream.next ensures i in next.taken || i + 16 < |next.channel.log| {
          assert next.taken[|st.taken|] == st.stream.next;
          assert i in st.taken ==> i in next.taken;
        }
      } else {
        assert next.taken == st.taken;
      }
    }
  }

  lemma FaithfulStep(st: Sse, action: Action, from: nat)
    requires Faithful(st, from)
    ensures Faithful(Act(st, action), from)
  {
    hide Tails;
    if action.PollStream? {
      FaithfulPoll(st, action.fails, from);
    }
  }

  /** In every interleaving, what the client did not get from the channel had been evicted. */
  lemma {:induction false} SkippedWereEvicted(
    log: seq<Snapshot>, initial: Snapshot, store: Snapshot, actions: seq<Action>, k: nat)
    requires k <= |actions|
    ensures Faithful(Run(Subscribed(log, initial, store), actions, k), |log|)
    decreases k
  {
    if k > 0 {
      SkippedWereEvicted(log, initial, store, actions, k - 1);
      FaithfulStep(Run(Subscribed(log, initial, store), actions, k - 1), actions[k - 1], |log|);
    }
  }

  // ---- No lost close ----

  predicate Drained(s: State, channel: Channel) {
    s.head.None? && !s.resyncing && s.next == |channel.log|
  }

  /** The closing publish at `index` is consumed, still ahead, or owed by a re-read. */
  predicate Owed(st: Sse, index: nat) {
    || st.stream.closed
    || (st.stream.next <= index < |st.channel.log| && st.channel.log[index].StreamClosed())
    || (st.stream.resyncing && (st.reread.Some? ==> st.reread.value.StreamClosed()))
  }

  lemma OwedStep(st: Sse, action: Action, index: nat, from: nat)
    requires Shape(st, from) && Owed(st, index)
    requires st.store.StreamClosed() && (action.Write? ==> action.snapshot.StreamClosed())
    ensures Owed(Act(st, action), index)
    ensures Act(st, action).store.StreamClosed()
  {
  }

  /** From the `i`-th action on, the stores answer closing snapshots. */
  predicate StaysClosing(start: Sse, actions: seq<Action>, i: nat)
    requires i <= |actions|
  {
    Run(start, actions, i).store.StreamClosed()
    && forall k :: i <= k < |actions| && actions[k].Write? ==> actions[k].snapshot.StreamClosed()
  }

  lemma {:induction false} StaysOwed(
    log: seq<Snapshot>, initial: Snapshot, store: Snapshot, actions: seq<Action>, i: nat, j: nat)
    requires i < j <= |actions|
    requires actions[i].Publish? && actions[i].snapshot.StreamClosed()
    requires Run(Subscribed(log, initial, store), actions, i).channel.open
    requires StaysClosing(Subscribed(log, initial, store), actions, i)
    ensures var start := Subscribed(log, initial, store);
            && Owed(Run(start, actions, j), |Run(start, actions, i).channel.log|)
            && Run(start, actions, j).store.StreamClosed()
    decreases j
  {
    var start := Subscribed(log, initial, store);
    OutputShape(log, initial, store, actions, j - 1);
    if j > i + 1 {
      StaysOwed(log, initial, store, actions, i, j - 1);
      OwedStep(Run(start, actions, j - 1), actions[j - 1], |Run(start, actions, i).channel.log|, |log|);
    }
  }

  /** Once a closing snapshot was published to the subscriber and the stores keep answering
      closing snapshots, a stream that has nothing left to deliver is closed, whatever was
      evicted from the channel in between. */
  lemma NoLostClose(log: seq<Snapshot>, initial: Snapshot, store: Snapshot, actions: seq<Action>, i: nat, j: nat)
    requires i < j <= |actions|
    requires actions[i].Publish? && actions[i].snapshot.StreamClosed()
    requires Run(Subscribed(log, initial, store), actions, i).channel.open
    requires StaysClosing(Subscribed(log, initial, store), actions, i)
    ensures var end := Run(Subscribed(log, initial, store), actions, j);
            Drained(end.stream, end.channel) ==> end.stream.closed
  {
    StaysOwed(log, initial, store, actions, i, j);
  }

  /** What a poll of the channel finds, when nothing else is due: lag exactly when more than 16
      snapshots are waiting, otherwise the next one, as it was published. */
  lemma TailPollIs(s: State, channel: Channel, reply: Reply)
    requires !s.closed && s.head.None? && !s.resyncing
    ensures var poll := Polled(s, channel, reply).1;
            && (poll == Ready(LagEvent) <==> s.next + 16 < |channel.log|)
            && (s.next < |channel.log| <= s.next + 16 ==> poll == Ready(SnapshotEvent(channel.log[s.next], Tail)))
            && (s.next >= |channel.log| ==> poll == if channel.open then Pending else Ended)
  {
  }

  /** Polls left before the stream is drained, if nothing more is published. */
  function Backlog(s: State, channel: Channel): int {
    (if s.head.Some? then 1 else 0) + (if s.resyncing then 1 else 0) + 2 * (|channel.log| - s.next)
  }

  /** Draining ends: every delivered event shortens the backlog, and a stream that has an
      answered re-read delivers until it is drained or closed. */
  lemma DrainProgress(s: State, channel: Channel, reply: Reply)
    requires s.next <= |channel.log|
    ensures var (t, poll) := Polled(s, channel, reply);
            && (poll.Ready? ==> 0 <= Backlog(t, channel) < Backlog(s, channel))
            && (!poll.Ready? && reply != NotReady ==> s.closed || Drained(s, channel))
  {
  }
}
