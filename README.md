# Echo bot webhook — a Dafny model

This project models the reply logic of a small chat-platform bot written in
Python with Flask and the platform's messaging SDK. The platform calls the
bot's `/callback` route with a signed batch of webhook events. The bot
rejects the request when the signature does not verify. Otherwise it hands
each event to the handler registered for its type:

- a **follow** event is answered with a fixed welcome text;
- a **text message** is answered with a one-button template when the text is
  exactly `postback`, and otherwise echoed back behind the prefix
  `您傳送的訊息是：`;
- a **postback** is acknowledged with `Postback 已觸發！` when its data is
  exactly `postback_action` (the data of the template's button), and
  ignored otherwise;
- every other event, and every non-text message, has no handler and gets
  no reply.

Each reply is one call to the reply endpoint carrying the event's reply
token and exactly one message. The model represents that call by the
`ReplyRequest` value a handler returns.

Modules:

- `Wrappers` (`wrappers.dfy`): the `Option` type.
- `Messaging` (`messaging.dfy`): the outbound message types the bot builds
  (text message, buttons template with postback actions, reply request).
- `Webhooks` (`webhooks.dfy`): the decoded inbound events.
- `EchoBot` (`echo_bot.dfy`): the three handlers, the handler table
  `Reply`, the batch `Replies`, and the route `Callback`.

The SDK's signature check and body decoding are not visible. `Callback`
therefore takes them as parameters: `verify(body, signature)` and
`decode(body)`, which returns the decoded events or `None`. Every property
about `Callback` holds for every such pair of functions.

How the route answers the two requests it cannot handle:

- A request without the `X-Line-Signature` header fails on the header
  lookup (app.py:35). The web framework answers that with 400 before any
  check runs, and nothing is sent.
- A body that passes the signature check but does not decode raises an
  exception that the route does not catch (it catches only the
  invalid-signature error, app.py:44). The server answers 500, and nothing
  is sent.

## Model

| member | source | states |
|---|---|---|
| `EchoBot.HandleFollow` | app.py:52-66 | the follow handler replies with the event's token and exactly one message, the welcome text |
| `EchoBot.HandleMessage` | app.py:70-101 | the text-message handler replies with the event's token and exactly one message, a template if and only if the text is `postback`, and otherwise the prefix followed by the text |
| `EchoBot.HandlePostback` | app.py:104-115 | the postback handler replies if and only if the data is `postback_action`, and then with the event's token and exactly the acknowledgment text |
| `EchoBot.Reply` | app.py:52-115 | any reply produced carries the triggering event's reply token unchanged and exactly one message, and unsupported event types are never answered |
| `EchoBot.EchoText` | app.py:99 | the echo is the fixed prefix followed by the user's text unchanged, so its length is the prefix length plus the text length |
| `EchoBot.FollowReply` | app.py:52-66 | a follow event gets exactly one text reply holding the welcome string, byte for byte, with the event's token |
| `EchoBot.TemplateReply` | app.py:74-93 | the text `postback` gets one template message: alt text and title `Postback Sample`, text `Postback Action`, one postback action labelled `Click Me!` with text `You clicked the button!` and data `postback_action` |
| `EchoBot.EchoReply` | app.py:94-101 | any other text T gets one text reply equal to the prefix followed by T, which ends with T and is the prefix length longer than T |
| `EchoBot.TemplateIffTrigger` | app.py:74-101 | a text message is always answered; the reply is a template if and only if the text is `postback`, and a text message if and only if it is not |
| `EchoBot.PostbackReply` | app.py:105-115 | postback data `postback_action` gets one text reply `Postback 已觸發！`; any other data gets no reply |
| `EchoBot.ButtonRoundTrip` | app.py:76-113 | the template built for `postback` has exactly one button, and tapping it yields a postback the bot acknowledges, whatever the new reply token |
| `EchoBot.NoReplyIff` | app.py:52-115 | an event gets no reply if and only if it is of an unhandled type, is a non-text message, or is a postback with other data |
| `EchoBot.Replies` | app.py:43 | handling a batch sends no more replies than it has events, each carrying exactly one message |
| `EchoBot.RepliesAppend` | app.py:43 | the replies for a batch are the replies for its first part followed by those for the rest, so events are answered in order |
| `EchoBot.RepliesAnswerEvents` | app.py:59-114 | every reply sent for a batch is the handler's answer to one of its events and carries that event's reply token |
| `EchoBot.AnsweredEventReplied` | app.py:43 | every answered event's reply is sent exactly once, at the position right after the replies to the events before it |
| `EchoBot.NoRepliesIff` | app.py:52-115 | a batch produces no reply at all if and only if every event in it is unanswered |
| `EchoBot.Callback` | app.py:32-48 | assuming every reply is delivered, the route answers `OK` if and only if the header is present, the signature verifies and the body decodes, and then sends exactly the batch's replies; a missing header or bad signature aborts with 400, an undecodable body with 500 |
| `EchoBot.FailClosed` | app.py:42-46 | a request whose signature is missing or does not verify aborts with 400 and sends no reply, whatever its events |
| `EchoBot.CallbackRepliesAnswerEvents` | app.py:42-48 | a callback sends replies only after a successful signature check and decode, and each one answers an event of the decoded batch with one message |
| `EchoBot.BatchScenario` | app.py:42-115 | a verified batch of a follow, an echo, a `postback` text, an acknowledged postback, an ignored postback, a sticker and an unfollow sends exactly four replies, in event order, with the expected tokens and messages |

## Left out

- The Flask application, route registration, reading the header and body, and the HTTP response mechanics: these are web-framework plumbing. The model keeps only the outcome (`OK` with the replies sent, or an error status).
- The signature computation and the JSON decoding inside the SDK's `WebhookHandler.handle`: their code is not part of this model. They are parameters of `Callback`.
- The messaging API client and the network delivery of each reply: the outgoing call is the returned `ReplyRequest`. A delivery failure raises from inside a handler; the model does not represent it, nor its effects: the rest of the batch is not handled, and the route then answers 500 instead of `OK`.
- Callback: its "answers `OK`" clause holds only under the assumption above that every reply is delivered.
- Reply tokens: follow, message and postback events are assumed always to carry one, as the platform sends them; an event without a token is not modelled.
- Reading the access token, channel secret and port from the environment, logging, the `print` in the follow handler, and binding the server port: process start-up and I/O.
- Concurrency between simultaneous webhook calls: the handlers share no mutable state.
