/** The event-dispatch decision of the webhook handler `slack_events`:
    given an already decoded payload and what the outbound "post message"
    call would do, the response the handler returns (or the error it raises)
    together with the message it posts, if any. */
module SlackEvents {
  import opened Wrappers
  import opened JsonValues
  import Text

  /** The one command the handler reacts to, compared after lower-casing. */
  const WriteCommand: string := "/write"

  /** The fixed prompt posted back when the command is seen. */
  const Prompt: string := "글을 작성해 주세요!"

  /** The platform event nested in a payload: a JSON object, by key. */
  type Event = map<string, Json>

  /** The decoded request body. Only the two keys the handler reads are kept:
      the handshake `challenge` and the nested `event` object. */
  datatype Payload = Payload(challenge: Option<Json>, event: Option<Event>)

  /** The three response bodies the handler can return. */
  datatype Response =
    | ChallengeEcho(value: Json)   // {"challenge": value}
    | StatusIgnored                // {"status": "ignored"}
    | StatusOk                     // {"status": "ok"}

  /** One outbound "post message" action. */
  datatype Post = Post(channel: Json, text: string)

  /** What the outbound post call does when it is made: it succeeds, fails
      with the platform's API error (which the handler catches), or fails in
      any other way (which the handler does not catch). */
  datatype PostResult = Posted | ApiError | OtherFailure

  /** The errors the handler raises instead of returning a response. */
  datatype Fault =
    | MissingKey(key: string)   // a dictionary lookup of an absent key
    | TextNotString             // `.lower()` on a `text` that is not a string
    | PostRaised                // the post call failed other than by an API error

  /** The handler either returns a response or raises. */
  datatype Reply = Respond(response: Response) | Raise(fault: Fault)

  /** Everything one request produces: at most one post, and one reply. */
  datatype Outcome = Outcome(post: Option<Post>, reply: Reply)

  /** The JSON object a response is sent as. */
  function Body(r: Response): (j: Json)
    ensures j.JObject? && |j.fields| == 1
    ensures r.ChallengeEcho? <==> "challenge" in j.fields
    ensures r.ChallengeEcho? ==> j.fields["challenge"] == r.value
    ensures !r.ChallengeEcho? ==> "status" in j.fields && j.fields["status"].JString?
  {
    match r
    case ChallengeEcho(v) => JObject(map["challenge" := v])
    case StatusIgnored => JObject(map["status" := JString("ignored")])
    case StatusOk => JObject(map["status" := JString("ok")])
  }

  /** Reads a response back from its JSON body; `None` for any other JSON. */
  function ResponseOf(j: Json): Option<Response>
  {
    if j.JObject? && |j.fields| == 1 then
      if "challenge" in j.fields then Some(ChallengeEcho(j.fields["challenge"]))
      else if "status" in j.fields && j.fields["status"] == JString("ignored") then Some(StatusIgnored)
      else if "status" in j.fields && j.fields["status"] == JString("ok") then Some(StatusOk)
      else None
    else None
  }

  /** Whether a message text is the write command: it must be `/write` up to
      the case of its letters, with nothing before or after it. */
  function IsWriteCommand(text: string): (b: bool)
    ensures b <==>
      && |text| == 6
      && text[0] == '/'
      && text[1] in "wW" && text[2] in "rR" && text[3] in "iI"
      && text[4] in "tT" && text[5] in "eE"
  {
    Text.Lower(text) == WriteCommand
  }

  /** The event a payload carries, an absent one read as the empty object. */
  function EventOrEmpty(p: Payload): Event
  {
    if p.event.Some? then p.event.value else map[]
  }

  /** A URL-verification handshake. */
  predicate IsHandshake(p: Payload)
  {
    p.challenge.Some?
  }

  /** An event authored by a bot, outside a handshake. */
  predicate FromBot(p: Payload)
  {
    !IsHandshake(p) && p.event.Some? && "bot_id" in p.event.value
  }

  /** An event present in the payload that is neither a handshake nor from a bot. */
  predicate UserEvent(p: Payload)
  {
    !IsHandshake(p) && p.event.Some? && "bot_id" !in p.event.value
  }

  /** A user event whose `type` is "message" and which carries `text`. */
  predicate UserMessage(p: Payload)
  {
    && UserEvent(p)
    && "type" in p.event.value
    && p.event.value["type"] == JString("message")
    && "text" in p.event.value
  }

  /** A user message with a channel whose text is the write command. */
  predicate WriteRequest(p: Payload)
  {
    && UserMessage(p)
    && "channel" in p.event.value
    && p.event.value["text"].JString?
    && IsWriteCommand(p.event.value["text"].s)
  }

  /** The fault a payload raises before any post is attempted, if any. */
  function InputFault(p: Payload): Option<Fault>
  {
    if UserEvent(p) && "type" !in p.event.value then Some(MissingKey("type"))
    else if UserMessage(p) && "channel" !in p.event.value then Some(MissingKey("channel"))
    else if UserMessage(p) && !p.event.value["text"].JString? then Some(TextNotString)
    else None
  }

  /** One request through the handler, in the order the handler tests it. */
  function Dispatch(p: Payload, sent: PostResult): (o: Outcome)
    // a handshake is echoed unchanged, whatever else the payload holds
    ensures IsHandshake(p) ==> o == Outcome(None, Respond(ChallengeEcho(p.challenge.value)))
    // a bot's event is ignored, whatever it says
    ensures FromBot(p) ==> o == Outcome(None, Respond(StatusIgnored))
    // no event at all is nothing to do
    ensures !IsHandshake(p) && p.event.None? ==> o == Outcome(None, Respond(StatusOk))
    // exactly the write requests post, and they post the prompt to their channel
    ensures o.post.Some? <==> WriteRequest(p)
    ensures WriteRequest(p) ==> o.post == Some(Post(p.event.value["channel"], Prompt))
    // the handler raises exactly on malformed input and on an uncaught post failure
    ensures o.reply.Raise? <==> InputFault(p).Some? || (WriteRequest(p) && sent == OtherFailure)
    ensures InputFault(p).Some? ==> o == Outcome(None, Raise(InputFault(p).value))
    ensures WriteRequest(p) && sent == OtherFailure ==>
      o == Outcome(Some(Post(p.event.value["channel"], Prompt)), Raise(PostRaised))
    // past the handshake and bot checks, every returned response is {"status": "ok"}
    ensures UserEvent(p) && o.reply.Respond? ==> o.reply.response == StatusOk
  {
    if p.challenge.Some? then
      Outcome(None, Respond(ChallengeEcho(p.challenge.value)))
    else if "bot_id" in EventOrEmpty(p) then
      Outcome(None, Respond(StatusIgnored))
    else if p.event.None? then
      Outcome(None, Respond(StatusOk))
    else
      var ev := p.event.value;
      if "type" !in ev then
        Outcome(None, Raise(MissingKey("type")))
      else if ev["type"] != JString("message") || "text" !in ev then
        Outcome(None, Respond(StatusOk))
      else if "channel" !in ev then
        Outcome(None, Raise(MissingKey("channel")))
      else
        match ev["text"]
        case JString(t) =>
          if !IsWriteCommand(t) then Outcome(None, Respond(StatusOk))
          else
            var post := Post(ev["channel"], Prompt);
            (match sent
             case Posted => Outcome(Some(post), Respond(StatusOk))
             case ApiError => Outcome(Some(post), Respond(StatusOk))   // caught and logged
             case OtherFailure => Outcome(Some(post), Raise(PostRaised)))
        case _ =>
          Outcome(None, Raise(TextNotString))
  }
}
