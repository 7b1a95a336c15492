/**
 * The Pub/Sub service as the application sees it. What the service answers (a batch of
 * messages, or an exception) is an input; every call the application makes on it is
 * recorded, in order, in the service's event log.
 */
module Queue {
  import opened Wrappers

  newtype byte = x: int | 0 <= x < 256

  /** A received message: its ack handle and the message it carries (id and raw payload). */
  datatype ReceivedMessage = ReceivedMessage(ackId: string, messageId: string, data: seq<byte>)

  /** What one `pull` call does: deliver a (possibly empty) batch, or raise. */
  datatype PullResponse = Received(messages: seq<ReceivedMessage>) | PullRaised

  /**
   * How the subscriber client behaves during one call: whether the client can be created,
   * what the pull answers, and whether the acknowledge call returns normally.
   */
  datatype Conditions = Conditions(clientUp: bool, response: PullResponse, ackReachable: bool)

  /** A call made on the service. */
  datatype Event =
    | Pulled(maxMessages: nat)
    | Acknowledged(ackIds: seq<string>)
    | Published(text: string)

  /**
   * The payload decoders, which are library calls: base64 per section 4 of RFC 4648 and
   * UTF-8 per RFC 3629. `None` is the decoding error the library raises.
   */
  datatype Codecs = Codecs(base64: seq<byte> -> Option<seq<byte>>, utf8: seq<byte> -> Option<string>)

  /** `if not value` on an environment variable: unset and empty are both "missing". */
  predicate Configured(v: Option<string>)
  {
    v.Some? && v.value != ""
  }

  /** The ack handles of a batch, in pull order. */
  function AckIdsOf(ms: seq<ReceivedMessage>): (ids: seq<string>)
    ensures |ids| == |ms|
    ensures forall i :: 0 <= i < |ms| ==> ids[i] == ms[i].ackId
  {
    if ms == [] then [] else AckIdsOf(ms[..|ms| - 1]) + [ms[|ms| - 1].ackId]
  }

  class Service {
    var log: seq<Event>

    constructor ()
      ensures log == []
    {
      log := [];
    }

    /** A pull request; it answers with `response`. */
    method Pull(maxMessages: nat, response: PullResponse) returns (r: PullResponse)
      modifies this
      ensures log == old(log) + [Pulled(maxMessages)]
      ensures r == response
    {
      log := log + [Pulled(maxMessages)];
      r := response;
    }

    /** An acknowledge request; it raises when the service is not reachable. */
    method Acknowledge(ackIds: seq<string>, reachable: bool) returns (raised: bool)
      modifies this
      ensures log == old(log) + [Acknowledged(ackIds)]
      ensures raised == !reachable
    {
      log := log + [Acknowledged(ackIds)];
      raised := !reachable;
    }

    /** A publish request on the topic. */
    method Publish(text: string)
      modifies this
      ensures log == old(log) + [Published(text)]
    {
      log := log + [Published(text)];
    }
  }
}
