/** The records of the chat domain: users, stored messages and the three queued event kinds. */
module Models {
  import opened Wrappers
  import opened Constants

  /** The identity of one live client socket; sockets are compared by identity only. */
  datatype ChannelId = ChannelId(id: nat)

  /** A value held in an event dictionary: a string, a client socket, or `None`. */
  datatype Value = Str(s: string) | Socket(ch: ChannelId) | Null

  /** An event in its dictionary form, as it travels through the queue. */
  type Record = map<string, Value>

  /** `d.get(key, default)` */
  function Get(d: Record, key: string, default: Value := Str("")): (v: Value)
    ensures key in d ==> v == d[key]
    ensures key !in d ==> v == default
  {
    if key in d then d[key] else default
  }

  /** Python truthiness of a dictionary value: a non-empty string or a socket. */
  predicate Truthy(v: Value) {
    match v
    case Str(s) => s != ""
    case Socket(_) => true
    case Null => false
  }

  /** A JSON payload sent to a client socket. */
  datatype Payload =
    | Chat(sender: Value, text: Value)              // {"sender": ..., "text": ...}
    | Connected(userId: string, username: string)   // {"type": "connected", ...}
    | ErrorNotice(message: string)                  // {"type": "error", "message": ...}
    | History(messages: seq<Message>)               // {"type": "history", "messages": ..., "count": ...}

  /** A message as handed to the store. */
  datatype Message = Message(
    senderId: string,
    senderName: string,
    text: string,
    msgType: string,
    conversationId: string)

  /**
   * The three event records. `eventType` (the `type` field) is an ordinary field: the dataclasses give it a
   * default, but a caller may pass any string.
   */
  datatype Event =
    | UserMessageEvent(eventType: string, userId: string, sender: string, text: string, senderWs: Option<ChannelId>)
    | AIRequestEvent(eventType: string, userId: string, sender: string, text: string, senderWs: Option<ChannelId>)
    | AIResponseEvent(eventType: string, text: string, originalMessage: string, detectedIntent: string)

  /** `Message(sender_id, sender_name, text)` with the kind and conversation left to their defaults. */
  function NewMessage(senderId: string, senderName: string, text: string,
                      msgType: string := MessageTypeUser,
                      conversationId: string := ConversationDefault): (m: Message)
    ensures m.senderId == senderId && m.senderName == senderName && m.text == text
    ensures m.msgType == msgType && m.conversationId == conversationId
  {
    Message(senderId, senderName, text, msgType, conversationId)
  }

  /** `UserMessageEvent(...)` with every field defaulted as the dataclass does. */
  function NewUserMessageEvent(eventType: string := EventTypeUserMessage, userId: string := "", sender: string := "",
                               text: string := "", senderWs: Option<ChannelId> := None): (e: Event)
    ensures e.UserMessageEvent?
    ensures e.eventType == eventType && e.userId == userId && e.sender == sender && e.text == text && e.senderWs == senderWs
  {
    UserMessageEvent(eventType, userId, sender, text, senderWs)
  }

  /** `AIRequestEvent(...)` with every field defaulted as the dataclass does. */
  function NewAIRequestEvent(eventType: string := EventTypeAiRequest, userId: string := "", sender: string := "",
                             text: string := "", senderWs: Option<ChannelId> := None): (e: Event)
    ensures e.AIRequestEvent?
    ensures e.eventType == eventType && e.userId == userId && e.sender == sender && e.text == text && e.senderWs == senderWs
  {
    AIRequestEvent(eventType, userId, sender, text, senderWs)
  }

  /** `AIResponseEvent(...)` with every field defaulted as the dataclass does. */
  function NewAIResponseEvent(eventType: string := EventTypeAiResponse, text: string := "",
                              originalMessage: string := "", detectedIntent: string := ""): (e: Event)
    ensures e.AIResponseEvent?
    ensures e.eventType == eventType && e.text == text && e.originalMessage == originalMessage && e.detectedIntent == detectedIntent
  {
    AIResponseEvent(eventType, text, originalMessage, detectedIntent)
  }

  /** The defaults of the four records when nothing but the required fields is given. */
  lemma Defaults(senderId: string, senderName: string, text: string)
    ensures var m := NewMessage(senderId, senderName, text);
      m.msgType == "user_message" && m.conversationId == "default"
    ensures NewUserMessageEvent() == UserMessageEvent("user_message", "", "", "", None)
    ensures NewAIRequestEvent() == AIRequestEvent("ai_request", "", "", "", None)
    ensures NewAIResponseEvent() == AIResponseEvent("ai_response", "", "", "")
  {
  }
}
