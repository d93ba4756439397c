/** The per-payment broadcast hub. A channel is created by the first subscribe and never
    removed; a publish never creates one and is dropped while nobody is attached. */
module EventHub {
  import opened Types
  import opened Status

  datatype Slot = Slot(log: seq<Snapshot>, receivers: nat)

  type Channels = map<PaymentId, Slot>

  function SlotOf(channels: Channels, id: PaymentId): Slot {
    if id in channels then channels[id] else Slot([], 0)
  }

  /** The first subscribe creates the channel. */
  function WithSubscriber(channels: Channels, id: PaymentId): Channels {
    var slot := SlotOf(channels, id);
    channels[id := slot.(receivers := slot.receivers + 1)]
  }

  /** A dropped receiver leaves the channel in place. */
  function WithoutSubscriber(channels: Channels, id: PaymentId): Channels {
    if SlotOf(channels, id).receivers > 0
    then channels[id := SlotOf(channels, id).(receivers := SlotOf(channels, id).receivers - 1)] else channels
  }

  /** A publish reaches the log only while a receiver is attached. */
  function Published(channels: Channels, id: PaymentId, snapshot: Snapshot): Channels {
    if SlotOf(channels, id).receivers > 0
    then channels[id := SlotOf(channels, id).(log := SlotOf(channels, id).log + [snapshot])] else channels
  }

  class PaymentEventHub {
    var channels: Channels

    constructor ()
      ensures channels == map[]
    {
      channels := map[];
    }

    /** The receiver starts at the end of the log: it sees every later publish. */
    method Subscribe(id: PaymentId) returns (position: nat)
      modifies this
      ensures position == |SlotOf(old(channels), id).log| && channels == WithSubscriber(old(channels), id)
    {
      if id !in channels {
        channels := channels[id := Slot([], 0)];
      }
      var slot := channels[id];
      position := |slot.log|;
      channels := channels[id := slot.(receivers := slot.receivers + 1)];
    }

    /** The client's connection ends and its receiver is dropped. */
    method Unsubscribe(id: PaymentId)
      requires id in channels && channels[id].receivers > 0
      modifies this
      ensures channels == WithoutSubscriber(old(channels), id)
    {
      var slot := channels[id];
      channels := channels[id := slot.(receivers := slot.receivers - 1)];
    }

    /** Delivers to an attached subscriber and never grows the registry. */
    method Publish(id: PaymentId, snapshot: Snapshot)
      modifies this
      ensures channels == Published(old(channels), id, snapshot) && channels.Keys == old(channels).Keys
    {
      if id in channels {
        var slot := channels[id];
        if slot.receivers > 0 {
          channels := channels[id := slot.(log := slot.log + [snapshot])];
        }
      }
    }

    method HasSubscribers(id: PaymentId) returns (attached: bool)
      ensures attached <==> SlotOf(channels, id).receivers > 0
    {
      attached := id in channels && channels[id].receivers > 0;
    }
  }
}
