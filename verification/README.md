# Slack event dispatch, modelled in Dafny

This project models the decision at the heart of the Slack bot's webhook
handler `slack_events` (app.py): given the decoded JSON body of one event
callback, it returns exactly one response and makes at most one outbound
`chat.postMessage` call. The handler tests four things, in this order:

1. A `challenge` key means a URL-verification handshake. Its value is echoed
   back unchanged as `{"challenge": value}` and nothing else is looked at.
2. An event carrying `bot_id` was written by a bot and is answered
   `{"status": "ignored"}`. This avoids reply loops.
3. A `message` event with `text` is read for its text and channel. If the
   text lower-cases to exactly `/write`, the fixed prompt
   `글을 작성해 주세요!` is posted to that channel.
4. Everything else that does not raise (see below), including a post that
   failed with a Slack API error, is answered `{"status": "ok"}`.

The model is pure. `SlackEvents.Dispatch(payload, sent)` takes the decoded
payload and a `PostResult`. The `PostResult` stands for what the post call
would do if it were made: succeed, fail with the platform's API error, or
fail in any other way. `Dispatch` returns an `Outcome`, which holds the post
it makes (if any) and a `Reply`. The reply is either a `Response` or the
`Fault` the handler raises.

Files:

- `wrappers.dfy`: `Option`.
- `json.dfy`: decoded JSON values.
- `text.dfy`: ASCII lower-casing.
- `events.dfy`: the payload, response and post types, the response bodies,
  the command match and `Dispatch`.
- `properties.dfy`: lemmas that relate several requests, and worked cases.

The handler raises instead of answering in these cases:

- A missing field is not skipped. `["type"]` (app.py:61) and `["channel"]`
  (app.py:63) are unguarded lookups, so an event that is present but has no
  `type`, and a text message with no `channel`, raise `KeyError`. They are
  modelled as `MissingKey` faults.
- Only `SlackApiError` is caught (app.py:73). Any other exception from the
  post call escapes the handler after the post was attempted. This is
  modelled as the `OtherFailure` result and the `PostRaised` fault.
- The `text` of a message is passed to `.lower()` (app.py:66) only after the
  channel lookup. A text that is not a string therefore raises there, and is
  modelled as the `TextNotString` fault.

A missing `event` is read as an empty map for the bot check (app.py:57), and
the guard `"event" in data` (app.py:61) then skips it, so the reply is "ok".
An `event` that is present but empty fails that guard's next step and raises
on `type`.

## Model

| member | source | states |
|---|---|---|
| Text.Lower | app.py:66 | lower-casing keeps the length and maps every character on its own: `A`–`Z` to `a`–`z`, all others unchanged |
| SlackEvents.IsWriteCommand | app.py:66 | a text is the command exactly when it has six characters: `/` followed by w, r, i, t, e, each in either case |
| SlackEvents.Body | app.py:53-76 | every response is a one-key JSON object; only the handshake reply has the key `challenge`, and it holds the echoed value; the others carry a string `status` |
| SlackEvents.Dispatch | app.py:50-76 | a handshake echoes its value and posts nothing; a bot's event is ignored; no event means "ok"; a post is made exactly for a user's text message with a channel whose text is the command, and it carries the prompt to that channel; the handler raises exactly on a missing `type`/`channel` (the matching `KeyError`, no post), a non-string text, or an uncaught post failure (after posting, with `PostRaised`); past the handshake and bot checks every returned response is "ok" |
| DispatchProperties.ResponseRoundTrip | app.py:53-76 | each response body reads back as the response it came from, so the three bodies are distinct |
| DispatchProperties.HandshakeIgnoresRest | app.py:53-54 | with a `challenge`, neither the event nor the post result changes the outcome, and nothing is posted |
| DispatchProperties.BotIdSuppressesWrite | app.py:57-58 | adding `bot_id` with any value to an event that would post the prompt turns the outcome into "ignored" with no post |
| DispatchProperties.AbsentVersusEmptyEvent | app.py:57-61 | a payload without `event` is answered "ok", while an empty `event` object raises on `type` |
| DispatchProperties.QuietEvents | app.py:61-76 | a user event whose `type` is not "message", or that has no `text`, is answered "ok" without a post |
| DispatchProperties.PostFailureInvisible | app.py:67-76 | the post result never changes whether or what is posted; a caught API error gives the same outcome as a successful post |
| DispatchProperties.PastChecksAnsweredOk | app.py:60-76 | a well-formed request that is neither a handshake nor from a bot is answered "ok" unless the post fails uncaught |
| DispatchProperties.MalformedEventsRaise | app.py:61-63 | a user event without `type`, and a text message without `channel`, raise the matching `KeyError` and post nothing |
| DispatchProperties.CommandIgnoresCase | app.py:66 | two texts that agree up to letter case are both the command or both not |
| DispatchProperties.CommandIsExact | app.py:66 | nothing may come before or after the command: extending a matching text on either side makes it not match |
| DispatchProperties.CommandMatchesAnyCase | app.py:66 | `/write`, `/WRITE` and `/Write` are the command |
| DispatchProperties.CommandRejectsNearMisses | app.py:66 | `/write now`, ` /write` and `write` are not the command |
| DispatchProperties.ExampleHandshake | app.py:53-54 | `{"challenge": "abc123"}` is echoed even when a bot's event is present |
| DispatchProperties.ExampleBotWrite | app.py:57-58 | a bot's `/write` message is ignored and posts nothing |
| DispatchProperties.ExampleUserWrite | app.py:61-76 | a user's `/Write` in C1 posts the prompt to C1 and is answered "ok", whether the post succeeds or fails with an API error |
| DispatchProperties.ExampleUserHello | app.py:61-76 | a user's "hello" is answered "ok" without a post |

## Left out

- `verify_slack_signature` (app.py:23-34) is unreachable: its only call site is commented out (app.py:42-47). It also rests on HMAC-SHA256, which is a foreign call.
- Loading the environment and `.env`, and building the `WebClient` (app.py:11-18), are configuration and I/O.
- FastAPI routing, header extraction and `await request.json()` (app.py:36-50) are HTTP plumbing. The model starts from the decoded payload.
- A raised fault becomes the framework's server-error response. That mapping belongs to the framework and is not modelled.
- The network behaviour of `chat_postMessage` and the printed error line (app.py:69-74) are I/O. The call is modelled only as the emitted `Post` and an abstract `PostResult`.
- Text.Lower: lower-cases only ASCII letters, while Python's `str.lower()` also lower-cases other Unicode letters, because full Unicode case mapping is out of scope.
- A top-level body that is not a JSON object, and an `event` value that is not an object (including `null`), are JSON type confusion that the handler does not guard against. `Payload` types them away.
- JSON numbers are integers only. The handler only passes them through or compares them with a string, so fractions change nothing it decides.
- Keys of the payload other than `challenge` and `event` are never read by the handler and are not part of `Payload`.
