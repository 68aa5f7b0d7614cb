/**
 * The event queue shared by every producer and the single consumer, and the publisher that
 * flattens an event record into its dictionary form before enqueuing it.
 */
module Publishing {
  import opened Wrappers
  import opened Models

  /** What `publish` accepts: one of the three event records, or a dictionary taken as it is. */
  datatype Publishable = Typed(event: Event) | Dict(record: Record)

  /** The dictionary value of an optional socket: the socket, or `None`. */
  function SocketValue(ws: Option<ChannelId>): Value {
    if ws.Some? then Socket(ws.value) else Null
  }

  /** The keys of a flattened user-message or AI-request event. */
  const RequestKeys: set<string> := {"type", "user_id", "sender", "text", "sender_ws"}

  /** The keys of a flattened AI-response event. */
  const ResponseKeys: set<string> := {"type", "text", "original_message", "detected_intent"}

  /**
   * The dictionary `publish` enqueues: user-message and AI-request events become the same
   * five keys, AI-response events four; a dictionary is passed through unchanged.
   */
  function ToRecord(p: Publishable): (r: Record)
    ensures p.Dict? ==> r == p.record
    ensures p.Typed? && !p.event.AIResponseEvent? ==> r.Keys == RequestKeys
    ensures p.Typed? && p.event.AIResponseEvent? ==> r.Keys == ResponseKeys
    ensures p.Typed? ==> r["type"] == Str(p.event.eventType) && r["text"] == Str(p.event.text)
  {
    match p
    case Dict(d) => d
    case Typed(e) =>
      match e
      case UserMessageEvent(t, userId, sender, text, ws) =>
        map["type" := Str(t), "user_id" := Str(userId), "sender" := Str(sender), "text" := Str(text), "sender_ws" := SocketValue(ws)]
      case AIRequestEvent(t, userId, sender, text, ws) =>
        map["type" := Str(t), "user_id" := Str(userId), "sender" := Str(sender), "text" := Str(text), "sender_ws" := SocketValue(ws)]
      case AIResponseEvent(t, text, original, intent) =>
        map["type" := Str(t), "text" := Str(text), "original_message" := Str(original), "detected_intent" := Str(intent)]
  }

  /**
   * Reading a flattened event back with `get`, as the consumer does, yields every field of
   * the event unchanged.
   */
  lemma ReadBack(e: Event)
    ensures var r := ToRecord(Typed(e));
      && Get(r, "type") == Str(e.eventType)
      && Get(r, "text") == Str(e.text)
      && (!e.AIResponseEvent? ==>
            && Get(r, "user_id") == Str(e.userId)
            && Get(r, "sender") == Str(e.sender)
            && Get(r, "sender_ws", Null) == SocketValue(e.senderWs)
            && (Truthy(Get(r, "sender_ws", Null)) <==> e.senderWs.Some?))
      && (e.AIResponseEvent? ==>
            && Get(r, "original_message") == Str(e.originalMessage)
            && Get(r, "detected_intent") == Str(e.detectedIntent)
            && Get(r, "sender_ws", Null) == Null)
  {
  }

  /** The FIFO queue between the producers and the consumer. */
  class EventQueue {
    var items: seq<Record>

    constructor ()
      ensures items == []
    {
      items := [];
    }

    /** `put`: appends at the tail. */
    method Put(item: Record)
      modifies this
      ensures items == old(items) + [item]
    {
      items := items + [item];
    }

    /** `get` on a non-empty queue: takes the head (waiting on an empty queue is not modelled). */
    method Get() returns (item: Record)
      requires items != []
      modifies this
      ensures item == old(items)[0] && items == old(items)[1..]
    {
      item := items[0];
      items := items[1..];
    }
  }

  class EventPublisher {
    const queue: EventQueue

    constructor (queue: EventQueue)
      ensures this.queue == queue
    {
      this.queue := queue;
    }

    /** `publish`: exactly one item, the flattened event, is appended at the tail of the shared queue. */
    method Publish(event: Publishable)
      modifies queue
      ensures queue.items == old(queue.items) + [ToRecord(event)]
    {
      var eventDict := ToRecord(event);
      queue.Put(eventDict);
    }
  }
}
