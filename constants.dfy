/** The tag strings shared by stored messages and queued events, and the single conversation id. */
module Constants {
  // Kinds a stored message may have.
  const MessageTypeUser: string := "user_message"
  const MessageTypeAiResponse: string := "ai_response"
  const MessageTypeAiRequest: string := "ai_request"

  // The only conversation.
  const ConversationDefault: string := "default"

  // Tags carried by events in the queue.
  const EventTypeUserMessage: string := "user_message"
  const EventTypeAiResponse: string := "ai_response"
  const EventTypeAiRequest: string := "ai_request"

  /** The values the `MessageType` literal type admits. */
  predicate IsMessageType(s: string) {
    s == MessageTypeUser || s == MessageTypeAiResponse || s == MessageTypeAiRequest
  }

  /** The values the `EventType` literal type admits. */
  predicate IsEventType(s: string) {
    s == EventTypeUserMessage || s == EventTypeAiResponse || s == EventTypeAiRequest
  }

  /**
   * Event tags and message kinds are the same three distinct strings, so an event's tag
   * can be stored as the message kind unchanged.
   */
  lemma TagsAgree()
    ensures EventTypeUserMessage == MessageTypeUser
    ensures EventTypeAiResponse == MessageTypeAiResponse
    ensures EventTypeAiRequest == MessageTypeAiRequest
    ensures forall s :: IsMessageType(s) <==> IsEventType(s)
    ensures MessageTypeUser != MessageTypeAiResponse && MessageTypeUser != MessageTypeAiRequest
    ensures MessageTypeAiResponse != MessageTypeAiRequest
    ensures ConversationDefault == "default"
  {
  }
}
