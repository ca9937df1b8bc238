/** Properties of the handler's dispatch that relate several requests, and
    the worked cases the handler's behaviour is usually explained by. */
module DispatchProperties {
  import opened Wrappers
  import opened JsonValues
  import Text
  import opened SlackEvents

  /** A response body reads back as the response it was made from, so the
      three bodies are told apart by their JSON alone. */
  lemma ResponseRoundTrip(r: Response)
    ensures ResponseOf(Body(r)) == Some(r)
  {
  }

  /** A handshake short-circuits everything: replacing the event, or changing
      what the post call would do, does not change the outcome. */
  lemma HandshakeIgnoresRest(p: Payload, e: Option<Event>, s1: PostResult, s2: PostResult)
    requires p.challenge.Some?
    ensures Dispatch(p, s1) == Dispatch(p.(event := e), s2)
    ensures Dispatch(p, s1).post == None
  {
  }

  /** Adding `bot_id` to an event that would otherwise post the prompt makes
      the handler ignore it instead, whatever the value of `bot_id`. */
  lemma BotIdSuppressesWrite(ev: Event, v: Json, sent: PostResult)
    requires "bot_id" !in ev
    requires WriteRequest(Payload(None, Some(ev)))
    ensures Dispatch(Payload(None, Some(ev)), sent).post.Some?
    ensures Dispatch(Payload(None, Some(ev["bot_id" := v])), sent) == Outcome(None, Respond(StatusIgnored))
  {
  }

  /** A payload without `event` is answered "ok", but one whose `event` is
      the empty object raises on the lookup of `type`. */
  lemma AbsentVersusEmptyEvent(sent: PostResult)
    ensures Dispatch(Payload(None, None), sent) == Outcome(None, Respond(StatusOk))
    ensures Dispatch(Payload(None, Some(map[])), sent) == Outcome(None, Raise(MissingKey("type")))
  {
  }

  /** Events that are not messages, and messages without text, never post
      and are answered "ok". */
  lemma QuietEvents(ev: Event, sent: PostResult)
    requires "bot_id" !in ev && "type" in ev
    requires ev["type"] != JString("message") || "text" !in ev
    ensures Dispatch(Payload(None, Some(ev)), sent) == Outcome(None, Respond(StatusOk))
  {
  }

  /** The post call's result never changes whether or what is posted, and a
      caught API error is indistinguishable from a successful post. */
  lemma PostFailureInvisible(p: Payload, s1: PostResult, s2: PostResult)
    ensures Dispatch(p, s1).post == Dispatch(p, s2).post
    ensures s1 != OtherFailure && s2 != OtherFailure ==> Dispatch(p, s1) == Dispatch(p, s2)
  {
  }

  /** Once past the handshake and bot checks, every request whose input is
      well formed is answered "ok" unless the post failed uncaught. */
  lemma PastChecksAnsweredOk(p: Payload, sent: PostResult)
    requires !IsHandshake(p) && !FromBot(p)
    requires InputFault(p) == None && sent != OtherFailure
    ensures Dispatch(p, sent).reply == Respond(StatusOk)
  {
  }

  /** The two malformed events the handler raises on instead of skipping:
      an event without `type`, and a text message without `channel`. */
  lemma MalformedEventsRaise(ev: Event, sent: PostResult)
    requires "bot_id" !in ev
    ensures "type" !in ev ==>
      Dispatch(Payload(None, Some(ev)), sent) == Outcome(None, Raise(MissingKey("type")))
    ensures "type" in ev && ev["type"] == JString("message") && "text" in ev && "channel" !in ev ==>
      Dispatch(Payload(None, Some(ev)), sent) == Outcome(None, Raise(MissingKey("channel")))
  {
  }

  /** Two texts that agree up to the case of their letters are both the
      write command or both not. */
  lemma CommandIgnoresCase(s: string, t: string)
    requires |s| == |t|
    requires forall i :: 0 <= i < |s| ==> Text.LowerChar(s[i]) == Text.LowerChar(t[i])
    ensures IsWriteCommand(s) <==> IsWriteCommand(t)
  {
    assert Text.Lower(s) == Text.Lower(t);
  }

  /** The command match is exact apart from case: nothing may precede or
      follow the command. */
  lemma CommandIsExact(s: string, u: string)
    requires IsWriteCommand(s) && u != []
    ensures !IsWriteCommand(s + u) && !IsWriteCommand(u + s)
  {
  }

  /** Upper- and mixed-case spellings match. */
  lemma CommandMatchesAnyCase()
    ensures IsWriteCommand("/write") && IsWriteCommand("/WRITE") && IsWriteCommand("/Write")
  {
    assert "/WRITE"[1] in "wW" && "/WRITE"[2] in "rR" && "/WRITE"[3] in "iI";
    assert "/WRITE"[4] in "tT" && "/WRITE"[5] in "eE";
    assert "/Write"[1] in "wW" && "/Write"[2] in "rR" && "/Write"[3] in "iI";
    assert "/Write"[4] in "tT" && "/Write"[5] in "eE";
    assert "/write"[1] in "wW" && "/write"[2] in "rR" && "/write"[3] in "iI";
    assert "/write"[4] in "tT" && "/write"[5] in "eE";
  }

  /** A trailing argument, a leading space or a missing slash does not match. */
  lemma CommandRejectsNearMisses()
    ensures !IsWriteCommand("/write now") && !IsWriteCommand(" /write") && !IsWriteCommand("write")
  {
    assert |"/write now"| == 10 && |" /write"| == 7 && |"write"| == 5;
  }

  /** A handshake that also carries a bot's event is echoed. */
  lemma ExampleHandshake()
    ensures Dispatch(Payload(Some(JString("abc123")), Some(map["bot_id" := JString("B1")])), Posted)
         == Outcome(None, Respond(ChallengeEcho(JString("abc123"))))
  {
  }

  /** A bot's `/write` is ignored. */
  lemma ExampleBotWrite()
    ensures Dispatch(Payload(None, Some(map["bot_id" := JString("B1"), "type" := JString("message"),
                                            "text" := JString("/write"), "channel" := JString("C1")])), Posted)
         == Outcome(None, Respond(StatusIgnored))
  {
  }

  /** A user's `/Write` in channel C1 posts the prompt to C1, and the
      response is "ok" whether the post succeeds or fails with an API error. */
  lemma ExampleUserWrite(sent: PostResult)
    requires sent != OtherFailure
    ensures Dispatch(Payload(None, Some(map["type" := JString("message"), "text" := JString("/Write"),
                                            "channel" := JString("C1")])), sent)
         == Outcome(Some(Post(JString("C1"), Prompt)), Respond(StatusOk))
  {
    var ev: Event := map["type" := JString("message"), "text" := JString("/Write"), "channel" := JString("C1")];
    assert "bot_id" !in ev && ev["type"] == JString("message") && ev["channel"] == JString("C1");
    assert ev["text"] == JString("/Write");
    CommandMatchesAnyCase();
    assert WriteRequest(Payload(None, Some(ev)));
  }

  /** A user's "hello" is answered "ok" without a post. */
  lemma ExampleUserHello(sent: PostResult)
    ensures Dispatch(Payload(None, Some(map["type" := JString("message"), "text" := JString("hello"),
                                            "channel" := JString("C1")])), sent)
         == Outcome(None, Respond(StatusOk))
  {
    assert |"hello"| == 5;
  }
}
