/**
 * A connection to one client, reduced to the messages sent on it, in order.
 * Socket writes, timeouts and send failures are not modelled; a send that the
 * transport drops is still recorded as attempted.
 */
module Endpoints {
  import opened MessageTypes

  class Outbox {
    var sent: seq<Message>

    constructor()
      ensures sent == []
    {
      sent := [];
    }

    /** send / sendNow: queue one message after those already sent. */
    method Send(m: Message)
      modifies this
      ensures sent == old(sent) + [m]
    {
      sent := sent + [m];
    }
  }
}
