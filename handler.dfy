/**
 * One client session: the username check at the handshake, registration, the greeting, and
 * the per-frame loop that publishes chat messages and responder requests. The frames a client
 * sends are given as a sequence, already through the JSON decoder; the sequence ends where the
 * client disconnects.
 */
module Handler {
  import opened Wrappers
  import opened Constants
  import opened PyStr
  import opened Models
  import opened Publishing
  import opened Connections

  /** A decoded JSON document: a string, an object, or anything else (number, list, null, boolean). */
  datatype Json = JString(s: string) | JObject(fields: map<string, Json>) | JOther

  /** A received text frame: not valid JSON, or the document it decodes to. */
  datatype Frame = Malformed | Decoded(json: Json)

  /** Why building an event from a decoded frame raises. */
  datatype ParseError = NotAnObject | NotAString(key: string)

  const AiCommand: string := "/AIBot"
  const InvalidJson: string := "Invalid JSON format"
  const UsernameRequired: int := 1008

  /** `fields.get(key, default)` */
  function Field(fields: map<string, Json>, key: string, default: Json): (v: Json)
    ensures key in fields ==> v == fields[key]
    ensures key !in fields ==> v == default
  {
    if key in fields then fields[key] else default
  }

  /**
   * `parse_message_event`: text beginning with the command (case-sensitive, leading spaces not
   * skipped) is a responder request whose text has every occurrence of the command removed and
   * is then stripped; anything else is a chat message with the text as sent. A document that is
   * not an object, or whose type or text is not a string, raises.
   */
  function ParseMessageEvent(ws: ChannelId, userId: string, sender: string, data: Json): (r: Result<Event, ParseError>)
    ensures r.Err? <==>
      !data.JObject? || !Field(data.fields, "type", JString("message")).JString? || !Field(data.fields, "text", JString("")).JString?
    ensures r.Ok? ==>
      var text := Field(data.fields, "text", JString("")).s;
      && !r.value.AIResponseEvent?
      && r.value.userId == userId && r.value.sender == sender && r.value.senderWs == Some(ws)
      && (r.value.AIRequestEvent? <==> StartsWith(text, AiCommand))
      && (r.value.AIRequestEvent? ==> r.value.eventType == EventTypeAiRequest && r.value.text == Strip(RemoveAll(text, AiCommand)))
      && (r.value.UserMessageEvent? ==> r.value.eventType == EventTypeUserMessage && r.value.text == text)
  {
    if !data.JObject? then Err(NotAnObject)
    else if !Field(data.fields, "type", JString("message")).JString? then Err(NotAString("type"))
    else
      var text := Field(data.fields, "text", JString(""));
      if !text.JString? then Err(NotAString("text"))
      else if StartsWith(text.s, AiCommand) then
        Ok(NewAIRequestEvent(EventTypeAiRequest, userId, sender, Strip(RemoveAll(text.s, AiCommand)), Some(ws)))
      else
        Ok(NewUserMessageEvent(EventTypeUserMessage, userId, sender, text.s, Some(ws)))
  }

  /** A request written as the command and then text without the command carries that text, stripped. */
  lemma CommandText(ws: ChannelId, userId: string, sender: string, rest: string)
    requires !Contains(rest, AiCommand)
    ensures ParseMessageEvent(ws, userId, sender, JObject(map["text" := JString(AiCommand + rest)]))
      == Ok(AIRequestEvent(EventTypeAiRequest, userId, sender, Strip(rest), Some(ws)))
  {
    var text := AiCommand + rest;
    assert text[..|AiCommand|] == AiCommand;
    RemoveAllLeading(AiCommand, rest);
    RemoveAllAbsent(rest, AiCommand);
  }

  /** What the loop does with one frame. */
  datatype FrameOutcome = Skip | Publish(event: Event) | ReplyInvalidJson | Abort

  /**
   * One pass of the frame loop: malformed JSON is answered with an error and the loop goes on;
   * a text that is blank once stripped is skipped; otherwise the frame is parsed and published.
   * A document that makes `get` or `strip` raise ends the session.
   */
  function ClassifyFrame(ws: ChannelId, userId: string, sender: string, frame: Frame): (o: FrameOutcome)
    ensures o.ReplyInvalidJson? <==> frame.Malformed?
    ensures o.Publish? ==> frame.Decoded? && ParseMessageEvent(ws, userId, sender, frame.json) == Ok(o.event)
  {
    match frame
    case Malformed => ReplyInvalidJson
    case Decoded(data) =>
      if !data.JObject? then Abort
      else
        var text := Field(data.fields, "text", JString(""));
        if !text.JString? then Abort
        else
          if Strip(text.s) == [] then Skip
          else
            match ParseMessageEvent(ws, userId, sender, data)
            case Ok(event) => Publish(event)
            case Err(_) => Abort
  }

  /**
   * The loop's rules for one frame: malformed JSON, and only that, is answered; a text that is
   * blank once stripped, and only that, is skipped; what is published is the parsed event of a
   * frame whose text is not blank.
   */
  lemma FrameRules(ws: ChannelId, userId: string, sender: string, frame: Frame)
    ensures var o := ClassifyFrame(ws, userId, sender, frame);
      && (o.ReplyInvalidJson? <==> frame.Malformed?)
      && (o.Skip? <==>
            frame.Decoded? && frame.json.JObject? && Field(frame.json.fields, "text", JString("")).JString?
            && AllSpace(Field(frame.json.fields, "text", JString("")).s))
      && (o.Publish? ==>
            ParseMessageEvent(ws, userId, sender, frame.json) == Ok(o.event)
            && !AllSpace(Field(frame.json.fields, "text", JString("")).s))
  {
    if frame.Decoded? && frame.json.JObject? && Field(frame.json.fields, "text", JString("")).JString? {
      StripEmptyIffAllSpace(Field(frame.json.fields, "text", JString("")).s);
    }
  }

  /** What the frame loop sends back to its own client and publishes, in order. */
  datatype Loop = Loop(replies: seq<Payload>, published: seq<Event>)

  function Join(a: Loop, b: Loop): Loop {
    Loop(a.replies + b.replies, a.published + b.published)
  }

  /** What a frame that does not end the loop contributes. */
  function Emitted(o: FrameOutcome): Loop {
    match o
    case Publish(event) => Loop([], [event])
    case ReplyInvalidJson => Loop([ErrorNotice(InvalidJson)], [])
    case _ => Loop([], [])
  }

  /** How the loop classifies each frame it is sent. */
  function Outcomes(ws: ChannelId, userId: string, sender: string, frames: seq<Frame>): (os: seq<FrameOutcome>)
    ensures |os| == |frames|
  {
    seq(|frames|, i requires 0 <= i < |frames| => ClassifyFrame(ws, userId, sender, frames[i]))
  }

  /** What the loop sends and publishes for a run of outcomes, up to the first that raises. */
  function Fold(os: seq<FrameOutcome>): (l: Loop)
    ensures |l.replies| + |l.published| <= |os|
  {
    if os == [] || os[0].Abort? then Loop([], []) else Join(Emitted(os[0]), Fold(os[1..]))
  }

  /** The frame loop over the frames a client sends, up to their end or the first frame that raises. */
  function Listen(ws: ChannelId, userId: string, sender: string, frames: seq<Frame>): (l: Loop)
    ensures |l.replies| + |l.published| <= |frames|
  {
    Fold(Outcomes(ws, userId, sender, frames))
  }

  /** The loop handles the first frame, then the rest, unless the first one raises. */
  lemma ListenUnfold(ws: ChannelId, userId: string, sender: string, frames: seq<Frame>)
    requires frames != []
    ensures var o := ClassifyFrame(ws, userId, sender, frames[0]);
      Listen(ws, userId, sender, frames) ==
        if o.Abort? then Loop([], []) else Join(Emitted(o), Listen(ws, userId, sender, frames[1..]))
  {
    assert Outcomes(ws, userId, sender, frames)[1..] == Outcomes(ws, userId, sender, frames[1..]);
  }

  lemma JoinAssoc(a: Loop, b: Loop, c: Loop)
    ensures Join(Join(a, b), c) == Join(a, Join(b, c))
  {
    assert (a.replies + b.replies) + c.replies == a.replies + (b.replies + c.replies);
    assert (a.published + b.published) + c.published == a.published + (b.published + c.published);
  }

  /** One pass of the loop over the outcomes from `i` on. */
  lemma FoldStep(os: seq<FrameOutcome>, i: nat, l: Loop)
    requires i < |os|
    ensures os[i].Abort? ==> Join(l, Fold(os[i..])) == l
    ensures !os[i].Abort? ==> Join(l, Fold(os[i..])) == Join(Join(l, Emitted(os[i])), Fold(os[i + 1..]))
  {
    assert os[i..][1..] == os[i + 1..];
    if os[i].Abort? {
      assert Join(l, Loop([], [])) == l;
    } else {
      JoinAssoc(l, Emitted(os[i]), Fold(os[i + 1..]));
    }
  }

  lemma RecordsAppend(a: seq<Event>, b: seq<Event>)
    ensures Records(a + b) == Records(a) + Records(b)
  {
  }

  /** The loop over a single frame is that frame's contribution, or nothing when it raises. */
  lemma ListenOne(ws: ChannelId, userId: string, sender: string, frame: Frame)
    ensures var o := ClassifyFrame(ws, userId, sender, frame);
      Listen(ws, userId, sender, [frame]) == if o.Abort? then Loop([], []) else Emitted(o)
  {
    ListenUnfold(ws, userId, sender, [frame]);
    assert [frame][1..] == [];
    assert Listen(ws, userId, sender, []) == Loop([], []);
  }

  /** Publishing `b` after `a` leaves the queue holding both, in order. */
  lemma QueueStep(q0: seq<Record>, q1: seq<Record>, q2: seq<Record>, a: seq<Event>, b: seq<Event>)
    requires q1 == q0 + Records(a) && q2 == q1 + Records(b)
    ensures q2 == q0 + Records(a + b)
  {
    RecordsAppend(a, b);
    assert (q0 + Records(a)) + Records(b) == q0 + (Records(a) + Records(b));
  }

  /** The number of malformed frames. */
  function MalformedCount(frames: seq<Frame>): nat {
    if frames == [] then 0 else (if frames[0].Malformed? then 1 else 0) + MalformedCount(frames[1..])
  }

  predicate AllNotices(replies: seq<Payload>) {
    forall i :: 0 <= i < |replies| ==> replies[i] == ErrorNotice(InvalidJson)
  }

  /** The loop's only replies are the invalid-JSON notices. */
  lemma {:induction false} RepliesAreNotices(ws: ChannelId, userId: string, sender: string, frames: seq<Frame>)
    ensures AllNotices(Listen(ws, userId, sender, frames).replies)
    decreases |frames|
  {
    if frames != [] {
      RepliesAreNotices(ws, userId, sender, frames[1..]);
      ListenUnfold(ws, userId, sender, frames);
      var o := ClassifyFrame(ws, userId, sender, frames[0]);
      var rest := Listen(ws, userId, sender, frames[1..]).replies;
      if !o.Abort? {
        var head := Emitted(o).replies;
        assert head == [] || head == [ErrorNotice(InvalidJson)];
        assert Listen(ws, userId, sender, frames).replies == head + rest;
        forall i | 0 <= i < |head + rest|
          ensures (head + rest)[i] == ErrorNotice(InvalidJson)
        {
          if i >= |head| {
            assert (head + rest)[i] == rest[i - |head|];
          }
        }
      }
    }
  }

  /** The loop sends at most one reply per malformed frame. */
  lemma {:induction false} RepliesPerMalformedFrame(ws: ChannelId, userId: string, sender: string, frames: seq<Frame>)
    ensures |Listen(ws, userId, sender, frames).replies| <= MalformedCount(frames)
    decreases |frames|
  {
    if frames != [] {
      RepliesPerMalformedFrame(ws, userId, sender, frames[1..]);
      ListenUnfold(ws, userId, sender, frames);
      var o := ClassifyFrame(ws, userId, sender, frames[0]);
      assert |Emitted(o).replies| <= (if frames[0].Malformed? then 1 else 0);
    }
  }

  /**
   * Everything the loop publishes comes from a frame that parsed, with nonblank text, and
   * carries the session's user id, name and socket.
   */
  lemma {:induction false} PublishedFromFrames(ws: ChannelId, userId: string, sender: string, frames: seq<Frame>)
    ensures forall e :: e in Listen(ws, userId, sender, frames).published ==>
      && !e.AIResponseEvent? && e.userId == userId && e.sender == sender && e.senderWs == Some(ws)
      && exists i :: 0 <= i < |frames| && ClassifyFrame(ws, userId, sender, frames[i]) == Publish(e)
    decreases |frames|
  {
    if frames != [] {
      PublishedFromFrames(ws, userId, sender, frames[1..]);
      FrameRules(ws, userId, sender, frames[0]);
      forall e | e in Listen(ws, userId, sender, frames).published
        ensures && !e.AIResponseEvent? && e.userId == userId && e.sender == sender && e.senderWs == Some(ws)
          && exists i :: 0 <= i < |frames| && ClassifyFrame(ws, userId, sender, frames[i]) == Publish(e)
      {
        PublishedHeadOrTail(ws, userId, sender, frames, e);
        if ClassifyFrame(ws, userId, sender, frames[0]) != Publish(e) {
          var i :| 0 <= i < |frames[1..]| && ClassifyFrame(ws, userId, sender, frames[1..][i]) == Publish(e);
          assert frames[i + 1] == frames[1..][i];
        }
      }
    }
  }

  /** An event the loop publishes comes from its first frame or from the loop over the rest. */
  lemma PublishedHeadOrTail(ws: ChannelId, userId: string, sender: string, frames: seq<Frame>, e: Event)
    requires frames != [] && e in Listen(ws, userId, sender, frames).published
    ensures ClassifyFrame(ws, userId, sender, frames[0]) == Publish(e) || e in Listen(ws, userId, sender, frames[1..]).published
  {
    ListenUnfold(ws, userId, sender, frames);
  }

  /** Frames that are all blank chat messages publish nothing and draw no reply. */
  lemma {:induction false} BlankFramesIgnored(ws: ChannelId, userId: string, sender: string, frames: seq<Frame>)
    requires forall i :: 0 <= i < |frames| ==>
      frames[i].Decoded? && frames[i].json.JObject? && Field(frames[i].json.fields, "text", JString("")).JString?
      && AllSpace(Field(frames[i].json.fields, "text", JString("")).s)
    ensures Listen(ws, userId, sender, frames) == Loop([], [])
    decreases |frames|
  {
    if frames != [] {
      BlankFramesIgnored(ws, userId, sender, frames[1..]);
      ListenUnfold(ws, userId, sender, frames);
      FrameRules(ws, userId, sender, frames[0]);
    }
  }

  /** The whole session, as the client and the queue see it. */
  datatype Outcome =
    | Rejected(code: int)                                   // closed at the handshake
    | Session(replies: seq<Payload>, published: seq<Event>) // registered, then disconnected

  /**
   * `handle_websocket_connection`, with the history step reading the store's default
   * conversation: a blank username is refused before registration; otherwise the socket is
   * registered, the user is signed in (`signIn` is the store's answer, `None` when it raises),
   * greeted and sent the history, and then the frame loop runs.
   */
  function Connection(ws: ChannelId, username: string, signIn: Option<string>, history: seq<Message>, frames: seq<Frame>): (o: Outcome)
    ensures o.Rejected? <==> Strip(username) == []
    ensures o.Rejected? ==> o.code == UsernameRequired
    ensures o.Session? && signIn.None? ==> o == Session([], [])
    ensures o.Session? && signIn.Some? ==>
      |o.replies| >= 2 && o.replies[0] == Connected(signIn.value, Strip(username)) && o.replies[1] == History(history)
  {
    var name := Strip(username);
    if name == [] then Rejected(UsernameRequired)
    else if signIn.None? then Session([], [])
    else
      var l := Listen(ws, signIn.value, name, frames);
      Session([Connected(signIn.value, name), History(history)] + l.replies, l.published)
  }

  /** The three ways a session goes: refused, dropped at sign-in, or served. */
  lemma ConnectionCases(ws: ChannelId, username: string, signIn: Option<string>, history: seq<Message>, frames: seq<Frame>)
    ensures Strip(username) == [] ==> Connection(ws, username, signIn, history, frames) == Rejected(UsernameRequired)
    ensures Strip(username) != [] && signIn.None? ==> Connection(ws, username, signIn, history, frames) == Session([], [])
    ensures Strip(username) != [] && signIn.Some? ==>
      var l := Listen(ws, signIn.value, Strip(username), frames);
      Connection(ws, username, signIn, history, frames)
        == Session([Connected(signIn.value, Strip(username)), History(history)] + l.replies, l.published)
  {
  }

  function PublishedBy(o: Outcome): seq<Event> {
    if o.Rejected? then [] else o.published
  }

  /** The queue items the published events become. */
  function Records(events: seq<Event>): (r: seq<Record>)
    ensures |r| == |events|
  {
    seq(|events|, i requires 0 <= i < |events| => ToRecord(Typed(events[i])))
  }

  /** A username is refused exactly when it is empty or all whitespace, and a refused client is never greeted. */
  lemma UsernameRule(ws: ChannelId, username: string, signIn: Option<string>, history: seq<Message>, frames: seq<Frame>)
    ensures Connection(ws, username, signIn, history, frames).Rejected? <==> AllSpace(username)
    ensures Connection(ws, username, signIn, history, frames).Rejected? ==>
      Connection(ws, username, signIn, history, frames).code == 1008
    ensures signIn.Some? && !AllSpace(username) ==>
      Connection(ws, username, signIn, history, frames).replies[0] == Connected(signIn.value, Strip(username))
  {
    StripEmptyIffAllSpace(username);
  }

  /** Registering a socket and then disconnecting it leaves a registry that did not hold it as it was. */
  lemma RegisterThenDisconnect(s: seq<ChannelId>, ws: ChannelId)
    requires ws !in s
    ensures RemoveFirst(s + [ws], ws) == s
  {
    var t := s + [ws];
    assert FirstIndex(t, ws, |s|) by {
      forall j | 0 <= j < |s| ensures t[j] != ws {
        assert t[j] == s[j];
      }
    }
    RemoveFirstSplices(t, ws, |s|);
    assert t[..|s|] == s;
  }

  /** `process_message`: parse the frame and publish the event; a document that does not parse raises. */
  method ProcessMessage(publisher: EventPublisher, ws: ChannelId, userId: string, sender: string, data: Json)
    returns (r: Result<Event, ParseError>)
    modifies publisher.queue
    ensures r == ParseMessageEvent(ws, userId, sender, data)
    ensures r.Ok? ==> publisher.queue.items == old(publisher.queue.items) + [ToRecord(Typed(r.value))]
    ensures r.Err? ==> publisher.queue.items == old(publisher.queue.items)
  {
    r := ParseMessageEvent(ws, userId, sender, data);
    if r.Ok? {
      publisher.Publish(Typed(r.value));
    }
  }

  /** What one pass appends to the queue: the record of the event it publishes, if any. */
  lemma EmittedRecords(o: FrameOutcome)
    ensures Records(Emitted(o).published) == if o.Publish? then [ToRecord(Typed(o.event))] else []
  {
    if o.Publish? {
      assert Records([o.event])[0] == ToRecord(Typed(o.event));
    }
  }

  /**
   * One pass of the loop: answer malformed JSON, skip blank text, and otherwise hand the
   * document to `process_message`; a document that makes `get`, `strip` or the parse raise ends the loop.
   */
  method HandleFrame(publisher: EventPublisher, ws: ChannelId, userId: string, sender: string, frame: Frame)
    returns (outcome: FrameOutcome)
    modifies publisher.queue
    ensures outcome == ClassifyFrame(ws, userId, sender, frame)
    ensures publisher.queue.items == old(publisher.queue.items) + Records(Emitted(outcome).published)
  {
    if frame.Malformed? {
      outcome := ReplyInvalidJson;
    } else if !frame.json.JObject? {
      outcome := Abort;
    } else {
      var text := Field(frame.json.fields, "text", JString(""));
      if !text.JString? {
        outcome := Abort;
      } else if Strip(text.s) == [] {
        outcome := Skip;
      } else {
        var r := ProcessMessage(publisher, ws, userId, sender, frame.json);
        outcome := if r.Ok? then Publish(r.value) else Abort;
      }
    }
    EmittedRecords(outcome);
  }

  /** One pass of the loop at frame `i`, stated as the step it takes through the loop's run. */
  method LoopPass(publisher: EventPublisher, ws: ChannelId, userId: string, sender: string, frames: seq<Frame>,
                  i: nat, l: Loop, ghost q0: seq<Record>)
    returns (stop: bool, next: Loop)
    requires i < |frames|
    requires Join(l, Fold(Outcomes(ws, userId, sender, frames)[i..])) == Listen(ws, userId, sender, frames)
    requires publisher.queue.items == q0 + Records(l.published)
    modifies publisher.queue
    ensures stop ==> next == Listen(ws, userId, sender, frames)
    ensures !stop ==> Join(next, Fold(Outcomes(ws, userId, sender, frames)[i + 1..])) == Listen(ws, userId, sender, frames)
    ensures publisher.queue.items == q0 + Records(next.published)
  {
    ghost var os := Outcomes(ws, userId, sender, frames);
    ghost var before := publisher.queue.items;
    var outcome := HandleFrame(publisher, ws, userId, sender, frames[i]);
    assert outcome == os[i];
    FoldStep(os, i, l);
    QueueStep(q0, before, publisher.queue.items, l.published, Emitted(outcome).published);
    stop := outcome.Abort?;
    next := if stop then l else Join(l, Emitted(outcome));
  }

  /** The frame loop: reads frames until they end or one raises. */
  method ListenLoop(publisher: EventPublisher, ws: ChannelId, userId: string, sender: string, frames: seq<Frame>)
    returns (l: Loop)
    modifies publisher.queue
    ensures l == Listen(ws, userId, sender, frames)
    ensures publisher.queue.items == old(publisher.queue.items) + Records(l.published)
  {
    l := Loop([], []);
    var i := 0;
    var stopped := false;
    assert Outcomes(ws, userId, sender, frames)[0..] == Outcomes(ws, userId, sender, frames);
    assert Join(l, Listen(ws, userId, sender, frames)) == Listen(ws, userId, sender, frames);
    while i < |frames| && !stopped
      invariant 0 <= i <= |frames|
      invariant stopped ==> l == Listen(ws, userId, sender, frames)
      invariant !stopped ==> Join(l, Fold(Outcomes(ws, userId, sender, frames)[i..])) == Listen(ws, userId, sender, frames)
      invariant publisher.queue.items == old(publisher.queue.items) + Records(l.published)
      decreases |frames| - i, !stopped
    {
      stopped, l := LoopPass(publisher, ws, userId, sender, frames, i, l, old(publisher.queue.items));
      if !stopped {
        i := i + 1;
      }
    }
    if !stopped {
      assert Outcomes(ws, userId, sender, frames)[i..] == [];
      assert Join(l, Loop([], [])) == l;
    }
  }

  /** A signed-in client: registered, greeted with its id and the history, then the frame loop, then the disconnect. */
  method Converse(cm: ConnectionManager, publisher: EventPublisher, ws: ChannelId,
                  userId: string, name: string, history: seq<Message>, frames: seq<Frame>)
    returns (replies: seq<Payload>, published: seq<Event>)
    modifies cm, publisher.queue
    ensures var l := Listen(ws, userId, name, frames);
      replies == [Connected(userId, name), History(history)] + l.replies && published == l.published
    ensures cm.activeConnections == RemoveFirst(old(cm.activeConnections) + [ws], ws)
    ensures publisher.queue.items == old(publisher.queue.items) + Records(published)
  {
    cm.Connect(ws);
    var l := ListenLoop(publisher, ws, userId, name, frames);
    cm.Disconnect(ws);
    replies := [Connected(userId, name), History(history)] + l.replies;
    published := l.published;
  }

  /** A registered client's session: sign-in, greeting, the frame loop, and the disconnect that ends it. */
  method ServeSession(cm: ConnectionManager, publisher: EventPublisher, ws: ChannelId,
                      username: string, signIn: Option<string>, history: seq<Message>, frames: seq<Frame>)
    returns (outcome: Outcome)
    requires Strip(username) != []
    modifies cm, publisher.queue
    ensures outcome.Session? && outcome == Connection(ws, username, signIn, history, frames)
    ensures cm.activeConnections == RemoveFirst(old(cm.activeConnections) + [ws], ws)
    ensures publisher.queue.items == old(publisher.queue.items) + Records(outcome.published)
  {
    ConnectionCases(ws, username, signIn, history, frames);
    if signIn.None? {
      cm.Connect(ws);
      cm.Disconnect(ws);
      assert Records([]) == [];
      return Session([], []);
    }
    var replies, published := Converse(cm, publisher, ws, signIn.value, Strip(username), history, frames);
    outcome := Session(replies, published);
  }

  /**
   * `handle_websocket_connection`: refuse a blank username with close code 1008 before
   * registering; otherwise register, greet, run the frame loop, and disconnect however the
   * session ends.
   */
  method HandleWebsocketConnection(cm: ConnectionManager, publisher: EventPublisher, ws: ChannelId,
                                   username: string, signIn: Option<string>, history: seq<Message>, frames: seq<Frame>)
    returns (outcome: Outcome)
    modifies cm, publisher.queue
    ensures outcome == Connection(ws, username, signIn, history, frames)
    ensures outcome.Rejected? ==> cm.activeConnections == old(cm.activeConnections)
    ensures outcome.Session? ==> cm.activeConnections == RemoveFirst(old(cm.activeConnections) + [ws], ws)
    ensures publisher.queue.items == old(publisher.queue.items) + Records(PublishedBy(outcome))
  {
    if Strip(username) == [] {
      ConnectionCases(ws, username, signIn, history, frames);
      assert Records([]) == [];
      return Rejected(UsernameRequired);
    }
    outcome := ServeSession(cm, publisher, ws, username, signIn, history, frames);
  }

  /**
   * The session as written: the history step calls a store method that does not exist, so the
   * `AttributeError` it raises is caught by the catch-all, which disconnects. Every signed-in
   * client is greeted and then dropped before a single frame is read.
   */
  function ConnectionAsWritten(ws: ChannelId, username: string, signIn: Option<string>, frames: seq<Frame>): (o: Outcome)
    ensures o.Session? ==> o.published == [] && |o.replies| <= 1
    ensures o.Rejected? <==> Connection(ws, username, signIn, [], frames).Rejected?
  {
    var name := Strip(username);
    if name == [] then Rejected(UsernameRequired)
    else if signIn.None? then Session([], [])
    else Session([Connected(signIn.value, name)], [])
  }

  /** A username without surrounding spaces is kept as given. */
  lemma StripBob()
    ensures Strip("bob") == "bob"
  {
    var bob := "bob";
    assert !IsSpace(bob[0]) && !IsSpace(bob[|bob| - 1]);
    StripUnchanged(bob);
  }

  /** "hello" is neither blank nor a request. */
  lemma HelloText()
    ensures !AllSpace("hello") && !StartsWith("hello", AiCommand)
  {
    assert !IsSpace("hello"[0]);
    assert "hello"[0] != AiCommand[0];
  }

  /** A frame with only a text field has the default type. */
  lemma TextOnlyFields(text: string)
    ensures Field(map["text" := JString(text)], "type", JString("message")) == JString("message")
    ensures Field(map["text" := JString(text)], "text", JString("")) == JString(text)
  {
    assert "type"[1] != "text"[1];
  }

  /** A chat frame that carries only its text, like `{"text": "hello"}`. */
  function TextFrame(text: string): Frame {
    Decoded(JObject(map["text" := JString(text)]))
  }

  /** A frame carrying only a text that is neither blank nor a request is published as a chat message. */
  lemma ChatFrame(ws: ChannelId, userId: string, sender: string, text: string)
    requires !AllSpace(text) && !StartsWith(text, AiCommand)
    ensures ClassifyFrame(ws, userId, sender, TextFrame(text))
      == Publish(UserMessageEvent(EventTypeUserMessage, userId, sender, text, Some(ws)))
  {
    TextOnlyFields(text);
    StripEmptyIffAllSpace(text);
  }

  /** A signed-in client who sends one such frame is greeted, sent the history, and has the message published. */
  lemma ChatSession(ws: ChannelId, username: string, userId: string, text: string)
    requires Strip(username) != []
    requires !AllSpace(text) && !StartsWith(text, AiCommand)
    ensures Connection(ws, username, Some(userId), [], [TextFrame(text)])
      == Session([Connected(userId, Strip(username)), History([])],
                 [UserMessageEvent(EventTypeUserMessage, userId, Strip(username), text, Some(ws))])
  {
    var name := Strip(username);
    var frame := TextFrame(text);
    var event := UserMessageEvent(EventTypeUserMessage, userId, name, text, Some(ws));
    ChatFrame(ws, userId, name, text);
    ListenOne(ws, userId, name, frame);
    var greeting := [Connected(userId, name), History([])];
    assert Listen(ws, userId, name, [frame]) == Loop([], [event]);
    assert greeting + [] == greeting;
    ConnectionCases(ws, username, Some(userId), [], [frame]);
  }

  /** As written, the same client is greeted and then dropped before its frame is read. */
  lemma ChatSessionAsWritten(ws: ChannelId, username: string, userId: string, frames: seq<Frame>)
    requires Strip(username) != []
    ensures ConnectionAsWritten(ws, username, Some(userId), frames) == Session([Connected(userId, Strip(username))], [])
  {
  }

  /** A client "bob" who says "hello": the intended session publishes the message, the session as written does not. */
  lemma HistoryCallDropsSession(ws: ChannelId)
    ensures var frames := [TextFrame("hello")];
      && ConnectionAsWritten(ws, "bob", Some("u2"), frames) == Session([Connected("u2", "bob")], [])
      && Connection(ws, "bob", Some("u2"), [], frames)
           == Session([Connected("u2", "bob"), History([])],
                      [UserMessageEvent(EventTypeUserMessage, "u2", "bob", "hello", Some(ws))])
  {
    StripBob();
    HelloText();
    ChatSession(ws, "bob", "u2", "hello");
    ChatSessionAsWritten(ws, "bob", "u2", [TextFrame("hello")]);
  }
}
