/** A CONNECT from the client's first byte to the relay's last. */
module Tunnel {
  import opened Wire
  import N = Negotiation
  import R = Requests
  import Relay
  import RelayTrace

  /** How writing the pipelined payload upstream went: a failing write may deliver a prefix. */
  datatype InitialWrite = Sent | Failed(kept: nat)

  /** What the upstream server has received: the payload, then what the relay delivered. */
  function Upstream(initial: InitialWrite, idle: nat, start: nat, payload: Bytes, client: Bytes, server: Bytes,
                    events: seq<Relay.Event>): Bytes
  {
    match initial
    case Failed(kept) => payload[..Min(kept, |payload|)]
    case Sent => Relay.Run(Relay.Begin(idle, start, payload, client, server), events).up.delivered
  }

  /** Take any client byte stream whose negotiation succeeded, leaving a tail in the buffer and the
      rest unread. Then the stream is a dialogue (greeting, credentials, request) followed by tail
      and unread bytes, and however the connection ends the server has received a prefix of
      exactly those: nothing lost, repeated or reordered across the hand-over; and the whole of the tail
      unless writing it failed. */
  lemma EndToEnd(cfg: N.Config, input: Bytes, capacity: nat, request: R.Request, tail: Bytes, unread: Bytes,
                 initial: InitialWrite, idle: nat, start: nat, server: Bytes, events: seq<Relay.Event>)
    requires N.Negotiated(cfg, input, capacity).outcome == N.Accepted(request, tail + unread)
    ensures exists d :: N.IsDialogue(cfg, input, d, request, tail + unread)
    ensures Upstream(initial, idle, start, tail, unread, server, events) <= tail + unread
    ensures initial.Sent? ==>
      var t := Relay.Run(Relay.Begin(idle, start, tail, unread, server), events);
      && t.down.delivered <= server
      && tail <= Upstream(initial, idle, start, tail, unread, server, events)
      && (t.up.phase == Relay.Ended(Relay.Eof)
          ==> Upstream(initial, idle, start, tail, unread, server, events) == tail + unread)
  {
    N.AcceptedIffDialogue(cfg, input, capacity, request, tail + unread);
    Relay.BytesAreConserved(idle, start, tail, unread, server, events);
    RelayTrace.DeliveredGrows(Relay.Begin(idle, start, tail, unread, server), events, Relay.Up);
  }
}
