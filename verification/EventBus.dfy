/** The JetStream stream behind Bus.Publish: append-only, with message-id deduplication. */
module EventBus {
  import opened Calendar

  datatype Message<P> = Message(subject: string, payload: P, msgId: string, at: Instant)

  /** How one publish attempt ends: acknowledged, stored although an error is reported, or not stored. */
  datatype PublishResult = Acked | StoredUnacked | NotStored

  /** The server's default deduplication window, two minutes. */
  const WINDOW: int := 120_000_000_000

  /** A stored message with this id is still inside its window at time t. */
  predicate Duplicate<P>(stream: seq<Message<P>>, msgId: string, t: Instant) {
    msgId != "" && exists i :: 0 <= i < |stream| && stream[i].msgId == msgId && t - stream[i].at <= WINDOW
  }

  function Stored<P>(stream: seq<Message<P>>, m: Message<P>): (r: seq<Message<P>>)
    ensures stream <= r
  {
    if Duplicate(stream, m.msgId, m.at) then stream else stream + [m]
  }

  function AfterPublish<P>(stream: seq<Message<P>>, m: Message<P>, result: PublishResult): (r: seq<Message<P>>)
    ensures stream <= r
  {
    if result.NotStored? then stream else Stored(stream, m)
  }

  class Bus<P> {
    var stream: seq<Message<P>>

    constructor ()
      ensures stream == []
    {
      stream := [];
    }

    method Publish(subject: string, data: P, msgId: string, now: Instant, result: PublishResult) returns (ok: bool)
      modifies this
      ensures ok <==> result.Acked?
      ensures stream == AfterPublish(old(stream), Message(subject, data, msgId, now), result)
    {
      if !result.NotStored? {
        stream := Stored(stream, Message(subject, data, msgId, now));
      }
      ok := result.Acked?;
    }
  }
}
