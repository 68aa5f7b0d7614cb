/**
 * The scripted responder: keyword intent detection over a fixed table, a canned reply per
 * intent, and the request handler that publishes exactly one reply event.
 */
module Agent {
  import opened Wrappers
  import opened PyStr
  import opened Constants
  import opened Models
  import opened Publishing

  /** The canned replies, one per declared intent; `ReplyText` gives each one's wording. */
  datatype CannedReply = PythonReply | AsyncReply | WebSocketReply | EventReply | DatabaseReply

  /** One entry of the intent table: its name, its keywords, and the reply it is answered with. */
  datatype Intent = Intent(name: string, keywords: seq<string>, response: CannedReply)

  const DefaultIntent: string := "default"

  /** The intents in declaration order, which is the order detection tries them in. */
  const Intents: seq<Intent> := [
    Intent("python", ["python", "py", "django", "flask", "fastapi"], PythonReply),
    Intent("async", ["async", "await", "asyncio", "concurrent", "asynchronous"], AsyncReply),
    Intent("websocket", ["websocket", "ws://", "real-time", "bidirectional", "connection"], WebSocketReply),
    Intent("event", ["event", "queue", "publisher", "consumer", "event-driven"], EventReply),
    Intent("database", ["database", "sqlite", "sql", "store", "persistence"], DatabaseReply)
  ]

  /** The wording of each canned reply. */
  function ReplyText(reply: CannedReply): string {
    match reply
    case PythonReply =>
      "Python is a versatile, high-level programming language known for its simplicity and readability. It's widely used in web development, data science, AI/ML, and automation. FastAPI is a modern Python framework for building APIs with WebSocket support!"
    case AsyncReply =>
      "Async/await enables non-blocking, concurrent programming. Asyncio allows multiple operations to run without blocking the event loop. This is perfect for I/O-bound operations like WebSockets, network requests, and database queries!"
    case WebSocketReply =>
      "WebSockets enable persistent, bidirectional communication between client and server. Unlike HTTP, WebSockets keep the connection open for real-time messaging. This is what powers our chat system!"
    case EventReply =>
      "Event-driven architecture uses events to trigger actions. Our system uses asyncio.Queue for an event pipeline: events are published, consumed, and processed asynchronously. This enables scalability and loose coupling!"
    case DatabaseReply =>
      "SQLite is a lightweight, file-based database perfect for MVP applications. It can store conversation history, user messages, and AI responses. This allows context-aware AI responses based on past conversations!"
  }


  /** Some keyword of the intent occurs in the (already lowercased) text. */
  predicate Matches(intent: Intent, lowered: string) {
    exists k :: k in intent.keywords && Contains(lowered, k)
  }

  /** The name of the first intent of `table` that matches, or "default". */
  function FirstIntent(table: seq<Intent>, lowered: string): string {
    if table == [] then DefaultIntent
    else if Matches(table[0], lowered) then table[0].name
    else FirstIntent(table[1..], lowered)
  }

  /** Detection answers "default" or the name of one of the table's intents. */
  lemma {:induction false} FirstIntentRange(table: seq<Intent>, lowered: string)
    ensures var r := FirstIntent(table, lowered);
      r == DefaultIntent || exists i :: 0 <= i < |table| && table[i].name == r
    decreases |table|
  {
    if table != [] && !Matches(table[0], lowered) {
      FirstIntentRange(table[1..], lowered);
      var r := FirstIntent(table[1..], lowered);
      if r != DefaultIntent {
        var i :| 0 <= i < |table[1..]| && table[1..][i].name == r;
        assert table[i + 1].name == r;
      }
    }
  }

  /** Detection over the declared table answers "default" or a name that table declares. */
  lemma FirstIntentDeclared(lowered: string)
    ensures var r := FirstIntent(Intents, lowered);
      r == DefaultIntent || Lookup(Intents, r).Some?
  {
    FirstIntentRange(Intents, lowered);
    var r := FirstIntent(Intents, lowered);
    if r != DefaultIntent {
      var i :| 0 <= i < |Intents| && Intents[i].name == r;
      IntentsWellNamed();
      LookupDeclared(Intents, i);
    }
  }

  /** The intent `detect_intent` reports for a message. */
  function IntentOf(message: string): string {
    FirstIntent(Intents, Lower(message))
  }

  /** A table whose intents have distinct names, none of them "default". */
  predicate WellNamed(table: seq<Intent>) {
    && (forall i :: 0 <= i < |table| ==> table[i].name != DefaultIntent)
    && (forall i, j :: 0 <= i < j < |table| ==> table[i].name != table[j].name)
  }

  /** Every keyword of the table is non-empty. */
  predicate KeywordsNonEmpty(table: seq<Intent>) {
    forall i, k :: 0 <= i < |table| && k in table[i].keywords ==> |k| > 0
  }

  /** The declared intents have distinct names, none of them "default". */
  lemma IntentsWellNamed()
    ensures WellNamed(Intents)
  {
  }

  /** Every declared intent has keywords, none of them empty. */
  lemma IntentsComplete()
    ensures forall i :: 0 <= i < |Intents| ==> |Intents[i].keywords| > 0
    ensures KeywordsNonEmpty(Intents)
  {
  }

  /**
   * Detection reports an intent exactly when that intent matches and no intent declared
   * before it does.
   */
  lemma {:induction false} FirstMatchWins(table: seq<Intent>, lowered: string, k: nat)
    requires WellNamed(table) && k < |table|
    ensures FirstIntent(table, lowered) == table[k].name
        <==> Matches(table[k], lowered) && forall j :: 0 <= j < k ==> !Matches(table[j], lowered)
    decreases k
  {
    if k == 0 {
      if !Matches(table[0], lowered) {
        FirstIntentRange(table[1..], lowered);
        var r := FirstIntent(table[1..], lowered);
        if r != DefaultIntent {
          var i :| 0 <= i < |table[1..]| && table[1..][i].name == r;
          assert table[i + 1].name == r;
        }
      }
    } else {
      if Matches(table[0], lowered) {
        assert table[0].name != table[k].name;
        assert FirstIntent(table, lowered) != table[k].name;
        assert !(forall j :: 0 <= j < k ==> !Matches(table[j], lowered)) by {
          assert Matches(table[0], lowered);
        }
      } else {
        var tail := table[1..];
        assert WellNamed(tail);
        FirstMatchWins(tail, lowered, k - 1);
        assert tail[k - 1] == table[k];
        if forall j :: 0 <= j < k - 1 ==> !Matches(tail[j], lowered) {
          forall j | 0 <= j < k ensures !Matches(table[j], lowered) {
            if j > 0 {
              assert table[j] == tail[j - 1];
            }
          }
        } else {
          var j :| 0 <= j < k - 1 && Matches(tail[j], lowered);
          assert table[j + 1] == tail[j];
        }
        assert FirstIntent(table, lowered) == FirstIntent(tail, lowered);
      }
    }
  }

  /** Detection falls back to "default" exactly when no intent matches. */
  lemma {:induction false} DefaultWhenNothingMatches(table: seq<Intent>, lowered: string)
    requires WellNamed(table)
    ensures FirstIntent(table, lowered) == DefaultIntent <==> forall j :: 0 <= j < |table| ==> !Matches(table[j], lowered)
    decreases |table|
  {
    if table != [] {
      assert WellNamed(table[1..]);
      DefaultWhenNothingMatches(table[1..], lowered);
      if !Matches(table[0], lowered) {
        forall j | 0 < j < |table| ensures table[j] == table[1..][j - 1] {
        }
      }
    }
  }

  /** First-match detection over any table with distinct names: the first intent that matches, else "default". */
  lemma FirstIntentSpec(table: seq<Intent>, lowered: string)
    requires WellNamed(table)
    ensures forall k :: 0 <= k < |table| ==>
      (FirstIntent(table, lowered) == table[k].name <==>
         Matches(table[k], lowered) && forall j :: 0 <= j < k ==> !Matches(table[j], lowered))
    ensures FirstIntent(table, lowered) == DefaultIntent <==> forall j :: 0 <= j < |table| ==> !Matches(table[j], lowered)
  {
    forall k | 0 <= k < |table|
      ensures FirstIntent(table, lowered) == table[k].name <==>
         Matches(table[k], lowered) && forall j :: 0 <= j < k ==> !Matches(table[j], lowered)
    {
      FirstMatchWins(table, lowered, k);
    }
    DefaultWhenNothingMatches(table, lowered);
  }

  /** `detect_intent` in terms of the declared table: first match in declaration order, else "default". */
  lemma DetectIntentSpec(message: string)
    ensures forall k :: 0 <= k < |Intents| ==>
      (IntentOf(message) == Intents[k].name <==>
         Matches(Intents[k], Lower(message)) && forall j :: 0 <= j < k ==> !Matches(Intents[j], Lower(message)))
    ensures IntentOf(message) == DefaultIntent <==> forall j :: 0 <= j < |Intents| ==> !Matches(Intents[j], Lower(message))
  {
    IntentsWellNamed();
    FirstIntentSpec(Intents, Lower(message));
  }

  /** Detection ignores letter case: texts that lowercase alike get the same intent. */
  lemma CaseInsensitive(a: string, b: string)
    ensures IntentOf(a) == IntentOf(Lower(a))
    ensures Lower(a) == Lower(b) ==> IntentOf(a) == IntentOf(b)
  {
    LowerIdempotent(a);
  }

  /** With no empty keyword in the table, empty text matches nothing. */
  lemma {:induction false} EmptyMatchesNothing(table: seq<Intent>)
    requires KeywordsNonEmpty(table)
    ensures FirstIntent(table, "") == DefaultIntent
    decreases |table|
  {
    if table != [] {
      assert !Matches(table[0], "") by {
        forall k | k in table[0].keywords ensures !Contains("", k) {
          assert |k| > 0;
        }
      }
      assert KeywordsNonEmpty(table[1..]) by {
        forall i, k | 0 <= i < |table[1..]| && k in table[1..][i].keywords ensures |k| > 0 {
          assert table[1..][i] == table[i + 1];
        }
      }
      EmptyMatchesNothing(table[1..]);
    }
  }

  /** Empty text matches no keyword, so its intent is "default". */
  lemma EmptyIsDefault()
    ensures IntentOf("") == DefaultIntent
  {
    IntentsComplete();
    assert Lower("") == "";
    EmptyMatchesNothing(Intents);
  }

  const DefaultPrefix: string := "I'm a mocked AI assistant in development. You asked about: '"
  const DefaultSuffix: string :=
    "'. I can help with questions about Python, async programming, WebSockets, event-driven architecture, and databases. Ask me anything!"

  /** "What is Python?" is detected as the python intent. */
  lemma PythonQuestion()
    ensures IntentOf("What is Python?") == "python"
  {
    var lowered := Lower("What is Python?");
    assert lowered[8..14] == "python";
    assert OccursAt("python", lowered, 8);
    assert Intents[0].keywords[0] == "python";
    assert Contains(lowered, Intents[0].keywords[0]);
    assert Matches(Intents[0], lowered);
  }

  /** Whatever the question, the python intent is answered with the Python reply. */
  lemma PythonAnswer(message: string)
    ensures GetResponse("python", message) == ReplyText(PythonReply)
  {
    ResponseOfDeclared(0, message);
  }

  /** The reply for an unknown intent; it quotes the question. */
  function DefaultResponse(originalMessage: string): (r: string)
    ensures Contains(r, originalMessage)
  {
    var r := DefaultPrefix + originalMessage + DefaultSuffix;
    assert OccursAt(originalMessage, r, |DefaultPrefix|);
    r
  }

  /** `intents[name]`, when the name is declared. */
  function Lookup(table: seq<Intent>, name: string): (r: Option<Intent>)
    ensures r.Some? ==> r.value in table && r.value.name == name
    ensures r.None? ==> forall i :: 0 <= i < |table| ==> table[i].name != name
  {
    if table == [] then None
    else if table[0].name == name then Some(table[0])
    else Lookup(table[1..], name)
  }

  /** In a table with distinct names, looking up a declared name finds that very intent. */
  lemma {:induction false} LookupDeclared(table: seq<Intent>, i: nat)
    requires WellNamed(table) && i < |table|
    ensures Lookup(table, table[i].name) == Some(table[i])
    decreases i
  {
    if i > 0 {
      assert table[0].name != table[i].name;
      assert WellNamed(table[1..]) && table[1..][i - 1] == table[i];
      LookupDeclared(table[1..], i - 1);
    }
  }

  /**
   * `get_response`: a declared intent gets its fixed reply; anything else gets the default
   * reply, which quotes the original message.
   */
  function GetResponse(intent: string, originalMessage: string): (r: string)
    ensures Lookup(Intents, intent).Some? ==> r == ReplyText(Lookup(Intents, intent).value.response)
    ensures Lookup(Intents, intent).None? ==> Contains(r, originalMessage)
  {
    var found := Lookup(Intents, intent);
    if found.Some? then ReplyText(found.value.response)
    else DefaultResponse(originalMessage)
  }

  /** Each declared intent's reply is the one declared with it. */
  lemma ResponseOfDeclared(i: nat, originalMessage: string)
    requires i < |Intents|
    ensures GetResponse(Intents[i].name, originalMessage) == ReplyText(Intents[i].response)
  {
    IntentsWellNamed();
    LookupDeclared(Intents, i);
  }

  /** The message Python gives when `.lower()` is called on a value that is not a string. */
  function NoLowerError(v: Value): string {
    match v
    case Socket(_) => "'WebSocket' object has no attribute 'lower'"
    case _ => "'NoneType' object has no attribute 'lower'"
  }

  /**
   * The one event `process_request` publishes for a request: the detected intent and its reply,
   * or, when the request text is not a string and detection raises, an error reply.
   */
  function Reply(request: Record): (e: Event)
    ensures e.AIResponseEvent? && e.eventType == EventTypeAiResponse
    ensures Get(request, "text").Str? ==>
      var msg := Get(request, "text").s;
      e.originalMessage == msg && e.detectedIntent == IntentOf(msg) && e.text == GetResponse(IntentOf(msg), msg)
    ensures !Get(request, "text").Str? ==>
      e.originalMessage == "" && e.detectedIntent == "" && StartsWith(e.text, "Error processing request: ")
  {
    var userMessage := Get(request, "text");
    if userMessage.Str? then
      var intent := IntentOf(userMessage.s);
      NewAIResponseEvent(EventTypeAiResponse, GetResponse(intent, userMessage.s), userMessage.s, intent)
    else
      var prefix := "Error processing request: ";
      assert (prefix + NoLowerError(userMessage))[..|prefix|] == prefix;
      NewAIResponseEvent(EventTypeAiResponse, prefix + NoLowerError(userMessage))
  }

  class MockedAIAgent {
    const publisher: EventPublisher

    constructor (publisher: EventPublisher)
      ensures this.publisher == publisher
    {
      this.publisher := publisher;
    }

    /** `detect_intent`: tries each intent's keywords in order and stops at the first that occurs. */
    method DetectIntent(message: string) returns (intent: string)
      ensures intent == IntentOf(message)
    {
      var messageLower := Lower(message);
      var i := 0;
      while i < |Intents|
        invariant 0 <= i <= |Intents|
        invariant FirstIntent(Intents[i..], messageLower) == IntentOf(message)
      {
        var keywords := Intents[i].keywords;
        var j := 0;
        while j < |keywords|
          invariant 0 <= j <= |keywords|
          invariant forall m :: 0 <= m < j ==> !Contains(messageLower, keywords[m])
        {
          if Contains(messageLower, keywords[j]) {
            assert Matches(Intents[i..][0], messageLower);
            return Intents[i].name;
          }
          j := j + 1;
        }
        assert Intents[i..][1..] == Intents[i + 1..];
        i := i + 1;
      }
      return DefaultIntent;
    }

    /** `process_request`: publishes exactly one reply event for the request. */
    method ProcessRequest(requestEvent: Record)
      modifies publisher.queue
      ensures publisher.queue.items == old(publisher.queue.items) + [ToRecord(Typed(Reply(requestEvent)))]
    {
      var userMessage := Get(requestEvent, "text");
      if userMessage.Str? {
        var intent := DetectIntent(userMessage.s);
        var aiResponse := GetResponse(intent, userMessage.s);
        var responseEvent := NewAIResponseEvent(EventTypeAiResponse, aiResponse, userMessage.s, intent);
        publisher.Publish(Typed(responseEvent));
      } else {
        var errorEvent := NewAIResponseEvent(EventTypeAiResponse, "Error processing request: " + NoLowerError(userMessage));
        publisher.Publish(Typed(errorEvent));
      }
    }
  }
}
