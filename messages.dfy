/** The message handles the operation layer consumes from the transport.
    The transport itself is not modelled: the fields it would change on its own
    (an outbound message's status, an inbound message's dropped flag) are plain
    fields, and every call this layer makes on a message is recorded in it. */
module Messages {
  import opened Protocol

  /** OutMessage::Status. */
  datatype Status = NotStarted | InProgress | Sent | Completed | Failed

  /** An outbound message: the request of a RemoteOp or the response of a ServerOp. */
  class OutMessage {
    /** Transport-reported status; only the transport changes it. */
    var status: Status
    /** Headers prepended so far, most recent first. */
    var prepended: seq<Header>
    /** Destinations of send(), in call order. */
    var sentTo: seq<Address>
    /** Number of release() and cancel() calls. */
    var releases: nat
    var cancellations: nat

    /** A message nothing has been done with yet. */
    predicate IsBlank()
      reads this
    {
      status == NotStarted && prepended == [] && sentTo == [] && releases == 0 && cancellations == 0
    }

    /** A freshly allocated message (Transport::alloc). */
    constructor ()
      ensures IsBlank()
    {
      status := NotStarted;
      prepended := [];
      sentTo := [];
      releases := 0;
      cancellations := 0;
    }

    method Prepend(h: Header)
      modifies this`prepended
      ensures prepended == [h] + old(prepended)
    {
      prepended := [h] + prepended;
    }

    method Send(destination: Address)
      modifies this`sentTo
      ensures sentTo == old(sentTo) + [destination]
    {
      sentTo := sentTo + [destination];
    }

    method Cancel()
      modifies this`cancellations
      ensures cancellations == old(cancellations) + 1
    {
      cancellations := cancellations + 1;
    }

    method Release()
      modifies this`releases
      ensures releases == old(releases) + 1
    {
      releases := releases + 1;
    }
  }

  /** An inbound message: the request of a ServerOp or the response of a RemoteOp. */
  class InMessage {
    /** Whether the transport has dropped the message (InMessage::dropped()). */
    var isDropped: bool
    /** Number of release(), acknowledge() and fail() calls. */
    var releases: nat
    var acknowledgements: nat
    var failures: nat

    /** A message as the transport's receive() hands it out. */
    constructor (dropped: bool)
      ensures isDropped == dropped
      ensures releases == 0 && acknowledgements == 0 && failures == 0
    {
      isDropped := dropped;
      releases := 0;
      acknowledgements := 0;
      failures := 0;
    }

    method Release()
      modifies this`releases
      ensures releases == old(releases) + 1
    {
      releases := releases + 1;
    }

    method Acknowledge()
      modifies this`acknowledgements
      ensures acknowledgements == old(acknowledgements) + 1
    {
      acknowledgements := acknowledgements + 1;
    }

    method Fail()
      modifies this`failures
      ensures failures == old(failures) + 1
    {
      failures := failures + 1;
    }
  }

  /** `m` was sent once to `destination` with `h` prepended, and nothing else
      was done with it. */
  twostate predicate Transmitted(m: OutMessage, h: Header, destination: Address)
    reads m
  {
    && m.prepended == [h] + old(m.prepended)
    && m.sentTo == old(m.sentTo) + [destination]
    && m.status == old(m.status)
    && m.releases == old(m.releases)
    && m.cancellations == old(m.cancellations)
  }
}
