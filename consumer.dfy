/**
 * The single consumer of the event queue. Each handler is a function from an event to the
 * ordered calls it makes on the store and the registry; the consume loop takes events off the
 * queue one at a time, makes those calls, and enqueues what the responder publishes.
 */
module Consuming {
  import opened Wrappers
  import opened Constants
  import opened Models
  import opened Publishing
  import opened Agent

  /** The fixed identity the responder's replies are stored and broadcast under. */
  const AiSender: string := "AIBot"

  /** One call a handler makes, in the order it makes them. */
  datatype Action =
    | GetOrCreateUser(username: string)                 // db.get_or_create_user
    | SaveMessage(message: Message)                     // db.save_message
    | Broadcast(payload: Payload)                       // connection_manager.broadcast
    | BroadcastExcept(payload: Payload, exclude: Value) // connection_manager.broadcast_except
    | Publish(record: Record)                           // the responder publishes its reply
    | Raised                                            // an exception escaped; the consumer stops

  /**
   * How the store answers during one handler run: the id it returns for the responder's
   * user, whether that lookup raises, and whether a save raises.
   */
  datatype StoreBehaviour = StoreBehaviour(aiUserId: string, lookupFails: bool, saveFails: bool)

  const HealthyStore: StoreBehaviour := StoreBehaviour("ai-user", false, false)

  predicate IsBroadcast(a: Action) {
    a.Broadcast? || a.BroadcastExcept?
  }

  /** The event's tag, `event.get("type", "")`. */
  function TypeOf(event: Record): Value {
    Get(event, "type")
  }

  /** The relay step of `handle_user_message`: everyone but the sender's socket when there is one, else everyone. */
  function Relay(event: Record): (a: Action)
    ensures IsBroadcast(a) && a.payload == Chat(Get(event, "sender"), Get(event, "text"))
    ensures a.BroadcastExcept? <==> Truthy(Get(event, "sender_ws", Null))
    ensures a.BroadcastExcept? ==> a.exclude == Get(event, "sender_ws", Null)
  {
    var broadcastMessage := Chat(Get(event, "sender"), Get(event, "text"));
    var senderWs := Get(event, "sender_ws", Null);
    if Truthy(senderWs) then BroadcastExcept(broadcastMessage, senderWs) else Broadcast(broadcastMessage)
  }

  /** The message `handle_user_message` saves: when both the user id and the sender name are non-empty. */
  predicate SavesUserMessage(event: Record) {
    Truthy(Get(event, "user_id")) && Truthy(Get(event, "sender"))
  }

  /**
   * `handle_user_message` (with the message built as evidently intended): save when user id
   * and sender are both non-empty, then relay {sender, text}. A failing save is not caught,
   * so it ends the handler before the relay.
   */
  function HandleUserMessage(event: Record, store: StoreBehaviour): (acts: seq<Action>)
    ensures 1 <= |acts| <= 2
    ensures Raised !in acts ==> acts[|acts| - 1] == Relay(event)
    ensures Raised in acts <==> SavesUserMessage(event) && (store.saveFails || !AllStrings(event))
    ensures (exists m :: SaveMessage(m) in acts) <==> SavesUserMessage(event) && AllStrings(event)
    ensures forall m :: SaveMessage(m) in acts ==>
      && acts[0] == SaveMessage(m)
      && m == Message(Get(event, "user_id").s, Get(event, "sender").s, Get(event, "text").s, MessageTypeUser, ConversationDefault)
    ensures forall i :: 0 <= i < |acts| ==> !acts[i].Publish? && !acts[i].GetOrCreateUser?
    ensures forall i, j :: 0 <= i < |acts| && 0 <= j < |acts| && IsBroadcast(acts[i]) && IsBroadcast(acts[j]) ==> i == j
  {
    var userId := Get(event, "user_id");
    var sender := Get(event, "sender");
    var text := Get(event, "text");
    if Truthy(userId) && Truthy(sender) then
      if userId.Str? && sender.Str? && text.Str? then
        var message := NewMessage(userId.s, sender.s, text.s, MessageTypeUser, ConversationDefault);
        if store.saveFails then [SaveMessage(message), Raised] else [SaveMessage(message), Relay(event)]
      else [Raised]
    else [Relay(event)]
  }

  /** The user id, sender and text of the event are strings (a dictionary could hold a socket or None there). */
  predicate AllStrings(event: Record) {
    Get(event, "user_id").Str? && Get(event, "sender").Str? && Get(event, "text").Str?
  }

  /**
   * `handle_ai_response` (with the message built as evidently intended): look up the responder's
   * user, save the reply under it, and broadcast {sender: "AIBot", text} to everyone. Store
   * failures are caught, so the broadcast always happens and nothing escapes.
   */
  function HandleAiResponse(event: Record, store: StoreBehaviour): (acts: seq<Action>)
    ensures Raised !in acts
    ensures 2 <= |acts| <= 3
    ensures acts[0] == GetOrCreateUser(AiSender)
    ensures acts[|acts| - 1] == Broadcast(Chat(Str(AiSender), Get(event, "text")))
    ensures forall i :: 0 <= i < |acts| - 1 ==> !IsBroadcast(acts[i]) && !acts[i].Publish?
    ensures forall m :: SaveMessage(m) in acts ==>
      Get(event, "text").Str? && m == Message(store.aiUserId, AiSender, Get(event, "text").s, MessageTypeAiResponse, ConversationDefault)
    ensures (exists m :: SaveMessage(m) in acts) <==> !store.lookupFails && Get(event, "text").Str?
  {
    var text := Get(event, "text");
    var saving :=
      if !store.lookupFails && text.Str? then
        [SaveMessage(NewMessage(store.aiUserId, AiSender, text.s, MessageTypeAiResponse, ConversationDefault))]
      else [];
    [GetOrCreateUser(AiSender)] + saving + [Broadcast(Chat(Str(AiSender), text))]
  }

  /**
   * `handle_user_message` as written: the message record is built with a `sender=` keyword,
   * but its field is named `sender_name`, so building it raises whenever a save is due, and
   * neither the save nor the relay happens.
   */
  function HandleUserMessageAsWritten(event: Record, store: StoreBehaviour): (acts: seq<Action>)
    ensures SavesUserMessage(event) ==> Raised in acts && forall i :: 0 <= i < |acts| ==> !IsBroadcast(acts[i])
    ensures !SavesUserMessage(event) ==> acts == HandleUserMessage(event, store)
  {
    if SavesUserMessage(event) then [Raised] else [Relay(event)]
  }

  /**
   * `handle_ai_response` as written: the same keyword error is raised after the responder's
   * user is looked up and is caught there, so the reply is broadcast but never saved.
   */
  function HandleAiResponseAsWritten(event: Record, store: StoreBehaviour): (acts: seq<Action>)
    ensures forall m :: SaveMessage(m) !in acts
    ensures Raised !in acts && |acts| == 2 && acts[1] == Broadcast(Chat(Str(AiSender), Get(event, "text")))
  {
    [GetOrCreateUser(AiSender), Broadcast(Chat(Str(AiSender), Get(event, "text")))]
  }

  /**
   * The keyword error in both handlers: with a working store, a chat message from a signed-in
   * user is neither saved nor relayed, and no responder reply is ever saved, where the
   * evidently intended handlers save and relay both.
   */
  lemma SenderKeywordLosesMessages(event: Record, store: StoreBehaviour)
    requires SavesUserMessage(event) && AllStrings(event) && !store.saveFails && !store.lookupFails
    requires Get(event, "text").Str?
    ensures Raised in HandleUserMessageAsWritten(event, store)
    ensures Raised !in HandleUserMessage(event, store)
    ensures HandleUserMessage(event, store)[|HandleUserMessage(event, store)| - 1] == Relay(event)
    ensures !(exists m :: SaveMessage(m) in HandleAiResponseAsWritten(event, store))
    ensures exists m :: SaveMessage(m) in HandleAiResponse(event, store)
  {
  }

  /** A concrete message that the as-written consumer drops: "hi" from alice, connected on socket 1. */
  lemma SenderKeywordWitness()
    ensures var event := ToRecord(Typed(UserMessageEvent(EventTypeUserMessage, "u1", "alice", "hi", Some(ChannelId(1)))));
      && HandleUserMessageAsWritten(event, HealthyStore) == [Raised]
      && HandleUserMessage(event, HealthyStore) ==
           [SaveMessage(Message("u1", "alice", "hi", MessageTypeUser, ConversationDefault)),
            BroadcastExcept(Chat(Str("alice"), Str("hi")), Socket(ChannelId(1)))]
  {
    var e := UserMessageEvent(EventTypeUserMessage, "u1", "alice", "hi", Some(ChannelId(1)));
    ReadBack(e);
  }

  /** `EventConsumer.handle_event`: user messages and responder replies; any other tag is ignored. */
  function HandleEvent(event: Record, store: StoreBehaviour): (acts: seq<Action>)
    ensures forall a :: a in acts ==> !a.Publish?
  {
    var eventType := TypeOf(event);
    if eventType == Str(EventTypeUserMessage) then HandleUserMessage(event, store)
    else if eventType == Str(EventTypeAiResponse) then HandleAiResponse(event, store)
    else []
  }

  /**
   * `AIEventConsumer.handle_event`: as the base consumer, and a responder request is first
   * handled as a user message, then passed to the responder, which publishes one reply.
   */
  function AiHandleEvent(event: Record, store: StoreBehaviour): (acts: seq<Action>)
    ensures forall i :: 0 <= i < |acts| && acts[i].Publish? ==>
      i == |acts| - 1 && TypeOf(event) == Str(EventTypeAiRequest) && Raised !in acts
  {
    var eventType := TypeOf(event);
    if eventType == Str(EventTypeUserMessage) then HandleUserMessage(event, store)
    else if eventType == Str(EventTypeAiRequest) then
      var first := HandleUserMessage(event, store);
      if Raised in first then first else first + [Publish(ToRecord(Typed(Reply(event))))]
    else if eventType == Str(EventTypeAiResponse) then HandleAiResponse(event, store)
    else []
  }

  /** The handler of the consumer in use: the responder-aware one or the base one. */
  function Dispatch(withAgent: bool, event: Record, store: StoreBehaviour): seq<Action> {
    if withAgent then AiHandleEvent(event, store) else HandleEvent(event, store)
  }

  /** Routing of both consumers, tag by tag. */
  lemma Routing(event: Record, store: StoreBehaviour)
    ensures TypeOf(event) == Str("user_message") ==>
      HandleEvent(event, store) == AiHandleEvent(event, store) == HandleUserMessage(event, store)
    ensures TypeOf(event) == Str("ai_response") ==>
      HandleEvent(event, store) == AiHandleEvent(event, store) == HandleAiResponse(event, store)
    ensures TypeOf(event) == Str("ai_request") ==> HandleEvent(event, store) == []
    ensures TypeOf(event) == Str("ai_request") && Raised !in HandleUserMessage(event, store) ==>
      AiHandleEvent(event, store) == HandleUserMessage(event, store) + [Publish(ToRecord(Typed(Reply(event))))]
    ensures TypeOf(event) !in {Str("user_message"), Str("ai_response"), Str("ai_request")} ==>
      HandleEvent(event, store) == [] && AiHandleEvent(event, store) == []
  {
  }

  /** The records the responder published during a run of actions, in order. */
  function Published(acts: seq<Action>): (r: seq<Record>)
    ensures |r| <= |acts|
  {
    if acts == [] then []
    else
      var last := acts[|acts| - 1];
      Published(acts[..|acts| - 1]) + (if last.Publish? then [last.record] else [])
  }

  /** How much work a queued event can still cause: a request also brings a reply. */
  function Cost(withAgent: bool, event: Record): nat {
    if withAgent && TypeOf(event) == Str(EventTypeAiRequest) then 2 else 1
  }

  function Weight(withAgent: bool, q: seq<Record>): nat {
    if q == [] then 0 else Cost(withAgent, q[0]) + Weight(withAgent, q[1..])
  }

  lemma {:induction false} WeightAppend(withAgent: bool, a: seq<Record>, b: seq<Record>)
    ensures Weight(withAgent, a + b) == Weight(withAgent, a) + Weight(withAgent, b)
    decreases |a|
  {
    if a == [] {
      assert a + b == b;
    } else {
      assert (a + b)[1..] == a[1..] + b;
      WeightAppend(withAgent, a[1..], b);
    }
  }

  lemma PublishedNone(acts: seq<Action>)
    requires forall i :: 0 <= i < |acts| ==> !acts[i].Publish?
    ensures Published(acts) == []
    decreases |acts|
  {
    if acts != [] {
      PublishedNone(acts[..|acts| - 1]);
    }
  }

  /**
   * Handling an event publishes nothing, except that the responder-aware consumer publishes
   * exactly the one reply to a request that was handled without an exception.
   */
  lemma PublishedByHandler(withAgent: bool, event: Record, store: StoreBehaviour)
    ensures var acts := Dispatch(withAgent, event, store);
      Published(acts) ==
        if withAgent && TypeOf(event) == Str(EventTypeAiRequest) && Raised !in acts
        then [ToRecord(Typed(Reply(event)))] else []
  {
    var acts := Dispatch(withAgent, event, store);
    if withAgent && TypeOf(event) == Str(EventTypeAiRequest) && Raised !in acts {
      var first := HandleUserMessage(event, store);
      PublishedNone(first);
      assert acts[..|acts| - 1] == first;
    } else if TypeOf(event) == Str(EventTypeAiResponse) {
      PublishedNone(HandleAiResponse(event, store));
    } else if TypeOf(event) == Str(EventTypeUserMessage) || TypeOf(event) == Str(EventTypeAiRequest) {
      PublishedNone(HandleUserMessage(event, store));
    }
  }

  /** Handling the head event leaves strictly less work in the queue. */
  lemma StepShrinks(withAgent: bool, q: seq<Record>, store: StoreBehaviour)
    requires q != []
    ensures Weight(withAgent, q[1..] + Published(Dispatch(withAgent, q[0], store))) < Weight(withAgent, q)
  {
    var acts := Dispatch(withAgent, q[0], store);
    PublishedByHandler(withAgent, q[0], store);
    WeightAppend(withAgent, q[1..], Published(acts));
    if Published(acts) != [] {
      var reply := ToRecord(Typed(Reply(q[0])));
      assert Published(acts) == [reply];
      assert TypeOf(reply) == Str(EventTypeAiResponse);
      assert Weight(withAgent, [reply]) == 1;
    }
  }

  /** What a run of the consumer does: every call it makes, and what is left in the queue when it stops. */
  datatype Trace = Trace(actions: seq<Action>, remaining: seq<Record>)

  /**
   * The consumer's run over a queue: the head event is handled completely, its published reply
   * joins the tail, and only then is the next event taken. An exception ends the run.
   */
  function Run(withAgent: bool, store: StoreBehaviour, q: seq<Record>): (t: Trace)
    ensures t.remaining != [] ==> Raised in t.actions
    decreases Weight(withAgent, q)
  {
    if q == [] then Trace([], [])
    else
      var acts := Dispatch(withAgent, q[0], store);
      if Raised in acts then Trace(acts, q[1..])
      else
        StepShrinks(withAgent, q, store);
        var rest := Run(withAgent, store, q[1..] + Published(acts));
        Trace(acts + rest.actions, rest.remaining)
  }

  /** One step of the run, for proofs that must not unfold the handlers. */
  lemma RunUnfold(withAgent: bool, store: StoreBehaviour, q: seq<Record>)
    requires q != []
    ensures var acts := Dispatch(withAgent, q[0], store);
      Run(withAgent, store, q) ==
        if Raised in acts then Trace(acts, q[1..])
        else
          var rest := Run(withAgent, store, q[1..] + Published(acts));
          Trace(acts + rest.actions, rest.remaining)
  {
  }

  /** A queue of one event whose handling does not raise: its actions, then the run over what it published. */
  lemma RunSingle(withAgent: bool, store: StoreBehaviour, event: Record)
    requires Raised !in Dispatch(withAgent, event, store)
    ensures var acts := Dispatch(withAgent, event, store);
      var rest := Run(withAgent, store, Published(acts));
      Run(withAgent, store, [event]) == Trace(acts + rest.actions, rest.remaining)
  {
    RunUnfold(withAgent, store, [event]);
    assert [event][1..] + Published(Dispatch(withAgent, event, store)) == Published(Dispatch(withAgent, event, store));
  }

  /** How the run over a queue continues after its head event has been handled. */
  lemma StepKeepsRun(withAgent: bool, store: StoreBehaviour, q: seq<Record>, before: seq<Action>)
    requires q != []
    ensures var acts := Dispatch(withAgent, q[0], store);
      var next := q[1..] + Published(acts);
      && Weight(withAgent, next) < Weight(withAgent, q)
      && (Raised in acts ==>
          before + Run(withAgent, store, q).actions == before + acts
          && Run(withAgent, store, q).remaining == next)
      && (Raised !in acts ==>
          before + Run(withAgent, store, q).actions == (before + acts) + Run(withAgent, store, next).actions
          && Run(withAgent, store, q).remaining == Run(withAgent, store, next).remaining)
  {
    var acts := Dispatch(withAgent, q[0], store);
    StepShrinks(withAgent, q, store);
    RunUnfold(withAgent, store, q);
    var next := q[1..] + Published(acts);
    var whole := Run(withAgent, store, q);
    if Raised in acts {
      PublishedByHandler(withAgent, q[0], store);
      assert next == q[1..];
    } else {
      var rest := Run(withAgent, store, next);
      assert whole.actions == acts + rest.actions;
      assert before + (acts + rest.actions) == (before + acts) + rest.actions;
    }
  }

  /** The handlers' calls for each event of the queue, one event after the other. */
  function InOrder(withAgent: bool, store: StoreBehaviour, q: seq<Record>): seq<Action> {
    if q == [] then [] else Dispatch(withAgent, q[0], store) + InOrder(withAgent, store, q[1..])
  }

  /**
   * When no handler raises or publishes, the consumer makes exactly the handlers' calls,
   * event by event in dequeue order, and drains the queue.
   */
  lemma {:induction false} RunInOrder(withAgent: bool, store: StoreBehaviour, q: seq<Record>)
    requires forall i :: 0 <= i < |q| ==>
      Raised !in Dispatch(withAgent, q[i], store) && Published(Dispatch(withAgent, q[i], store)) == []
    ensures Run(withAgent, store, q) == Trace(InOrder(withAgent, store, q), [])
    decreases |q|
  {
    if q != [] {
      assert q[1..] + [] == q[1..];
      RunInOrder(withAgent, store, q[1..]);
    }
  }

  /** A request's run: its own handling, then the run over the reply it published. */
  lemma RunRequest(request: Record, store: StoreBehaviour)
    requires TypeOf(request) == Str(EventTypeAiRequest)
    requires Raised !in HandleUserMessage(request, store)
    ensures var reply := ToRecord(Typed(Reply(request)));
      var rest := Run(true, store, [reply]);
      Run(true, store, [request]) == Trace(HandleUserMessage(request, store) + [Publish(reply)] + rest.actions, rest.remaining)
  {
    var reply := ToRecord(Typed(Reply(request)));
    var acts := Dispatch(true, request, store);
    assert acts == HandleUserMessage(request, store) + [Publish(reply)];
    PublishedByHandler(true, request, store);
    RunSingle(true, store, request);
  }

  /** A reply's run: the reply is handled and the queue is drained. */
  lemma RunReply(reply: Record, store: StoreBehaviour)
    requires TypeOf(reply) == Str(EventTypeAiResponse)
    ensures Run(true, store, [reply]) == Trace(HandleAiResponse(reply, store), [])
  {
    var answer := HandleAiResponse(reply, store);
    assert Dispatch(true, reply, store) == answer;
    PublishedNone(answer);
    RunUnfold(true, store, [reply]);
    assert [reply][1..] + Published(answer) == [];
  }

  /**
   * A responder request alone in the queue: the request is stored and relayed as a user
   * message, the responder publishes its reply, and the reply is then handled in turn.
   */
  lemma RequestRoundTrip(request: Record, store: StoreBehaviour)
    requires TypeOf(request) == Str(EventTypeAiRequest)
    requires Raised !in HandleUserMessage(request, store)
    ensures var reply := ToRecord(Typed(Reply(request)));
      Run(true, store, [request])
        == Trace(HandleUserMessage(request, store) + [Publish(reply)] + HandleAiResponse(reply, store), [])
  {
    var reply := ToRecord(Typed(Reply(request)));
    RunRequest(request, store);
    assert TypeOf(reply) == Str(EventTypeAiResponse);
    RunReply(reply, store);
  }

  /** With a working store, a signed-in user's request is saved and relayed to everyone else. */
  lemma HealthyRequest(userId: string, sender: string, text: string, ws: ChannelId)
    requires userId != "" && sender != ""
    ensures var request := ToRecord(Typed(AIRequestEvent(EventTypeAiRequest, userId, sender, text, Some(ws))));
      && TypeOf(request) == Str(EventTypeAiRequest)
      && Get(request, "text") == Str(text)
      && HandleUserMessage(request, HealthyStore) ==
           [SaveMessage(Message(userId, sender, text, MessageTypeUser, ConversationDefault)),
            BroadcastExcept(Chat(Str(sender), Str(text)), Socket(ws))]
  {
    var event := AIRequestEvent(EventTypeAiRequest, userId, sender, text, Some(ws));
    var request := ToRecord(Typed(event));
    ReadBack(event);
    assert Relay(request) == BroadcastExcept(Chat(Str(sender), Str(text)), Socket(ws));
  }

  /** With a working store, the reply to a text is saved under the responder and broadcast to everyone. */
  lemma HealthyReply(request: Record, text: string)
    requires Get(request, "text") == Str(text)
    ensures var reply := ToRecord(Typed(Reply(request)));
      var response := GetResponse(IntentOf(text), text);
      && TypeOf(reply) == Str(EventTypeAiResponse)
      && HandleAiResponse(reply, HealthyStore) ==
           [GetOrCreateUser(AiSender),
            SaveMessage(Message(HealthyStore.aiUserId, AiSender, response, MessageTypeAiResponse, ConversationDefault)),
            Broadcast(Chat(Str(AiSender), Str(response)))]
  {
    var e := Reply(request);
    ReadBack(e);
    HealthyReplyOf(ToRecord(Typed(e)), e.text);
  }

  /** A reply record carrying `response` is saved under the responder and broadcast to everyone. */
  lemma HealthyReplyOf(reply: Record, response: string)
    requires Get(reply, "text") == Str(response)
    ensures HandleAiResponse(reply, HealthyStore) ==
      [GetOrCreateUser(AiSender),
       SaveMessage(Message(HealthyStore.aiUserId, AiSender, response, MessageTypeAiResponse, ConversationDefault)),
       Broadcast(Chat(Str(AiSender), Str(response)))]
  {
  }

  /** Where the broadcasts sit when a two-action handling, one publish and a three-action handling follow each other. */
  lemma BroadcastsAt(first: seq<Action>, p: Action, second: seq<Action>)
    requires |first| == 2 && !IsBroadcast(first[0]) && IsBroadcast(first[1])
    requires !IsBroadcast(p)
    requires |second| == 3 && !IsBroadcast(second[0]) && !IsBroadcast(second[1]) && IsBroadcast(second[2])
    ensures var acts := first + [p] + second;
      && |acts| == 6
      && (forall i :: 0 <= i < |acts| ==> (IsBroadcast(acts[i]) <==> i == 1 || i == 5))
      && acts[1] == first[1] && acts[5] == second[2]
  {
    var acts := first + [p] + second;
    forall i | 0 <= i < |acts| ensures IsBroadcast(acts[i]) <==> i == 1 || i == 5 {
      if i < 2 {
        assert acts[i] == first[i];
      } else if i > 2 {
        assert acts[i] == second[i - 3];
      }
    }
  }

  /**
   * With a working store, a request from a connected user yields exactly two broadcasts: the
   * user's text to everyone else, then the responder's reply to everyone.
   */
  lemma RequestTwoBroadcasts(userId: string, sender: string, text: string, ws: ChannelId)
    requires userId != "" && sender != ""
    ensures var request := ToRecord(Typed(AIRequestEvent(EventTypeAiRequest, userId, sender, text, Some(ws))));
      var acts := Run(true, HealthyStore, [request]).actions;
      && |acts| == 6
      && (forall i :: 0 <= i < |acts| ==> (IsBroadcast(acts[i]) <==> i == 1 || i == 5))
      && acts[1] == BroadcastExcept(Chat(Str(sender), Str(text)), Socket(ws))
      && acts[5] == Broadcast(Chat(Str(AiSender), Str(GetResponse(IntentOf(text), text))))
  {
    var request := ToRecord(Typed(AIRequestEvent(EventTypeAiRequest, userId, sender, text, Some(ws))));
    var reply := ToRecord(Typed(Reply(request)));
    HealthyRequest(userId, sender, text, ws);
    HealthyReply(request, text);
    RequestRoundTrip(request, HealthyStore);
    BroadcastsAt(HandleUserMessage(request, HealthyStore), Publish(reply), HandleAiResponse(reply, HealthyStore));
  }

  /**
   * The consumer of the relay: it owns the shared queue's far end and records every call its
   * handlers make on the store and the registry.
   */
  class EventConsumer {
    const queue: EventQueue
    const store: StoreBehaviour
    const withAgent: bool
    var log: seq<Action>

    constructor (queue: EventQueue, store: StoreBehaviour, withAgent: bool)
      ensures this.queue == queue && this.store == store && this.withAgent == withAgent && log == []
    {
      this.queue := queue;
      this.store := store;
      this.withAgent := withAgent;
      log := [];
    }

    /** Makes the handler's calls in order: each is logged, and a published reply is enqueued. */
    method Perform(actions: seq<Action>)
      modifies this, queue
      ensures queue.items == old(queue.items) + Published(actions)
      ensures log == old(log) + actions
    {
      var k := 0;
      while k < |actions|
        invariant 0 <= k <= |actions|
        invariant queue.items == old(queue.items) + Published(actions[..k])
        invariant log == old(log) + actions[..k]
      {
        if actions[k].Publish? {
          queue.Put(actions[k].record);
        }
        assert actions[..k + 1][..k] == actions[..k];
        log := log + [actions[k]];
        k := k + 1;
      }
      assert actions[..k] == actions;
    }

    /**
     * `consume`: takes one event at a time, performs all of its handler's calls (enqueuing
     * what the responder publishes), and only then takes the next. It stops when an exception
     * escapes a handler, and where the source would wait on an empty queue.
     */
    method Consume()
      modifies this, queue
      ensures var t := Run(withAgent, store, old(queue.items));
        log == old(log) + t.actions && queue.items == t.remaining
    {
      ghost var target := Run(withAgent, store, queue.items);
      ghost var done := log;
      var halted := false;
      while queue.items != [] && !halted
        invariant !halted ==> done + target.actions == log + Run(withAgent, store, queue.items).actions
        invariant !halted ==> target.remaining == Run(withAgent, store, queue.items).remaining
        invariant halted ==> log == done + target.actions && queue.items == target.remaining
        decreases Weight(withAgent, queue.items)
      {
        ghost var q := queue.items;
        ghost var before := log;
        var event := queue.Get();
        var actions := Dispatch(withAgent, event, store);
        StepKeepsRun(withAgent, store, q, before);
        Perform(actions);
        if Raised in actions {
          halted := true;
        }
      }
    }
  }
}
