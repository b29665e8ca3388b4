/**
 The outbound side of the chat platform's messaging API, as far as the bot
 uses it: text messages, a buttons template carrying postback actions, and
 the reply request that pairs a reply token with the messages to send.
 */
module Messaging {

  /** A button labelled `buttonLabel` that, when tapped, sends `data` back
      to the bot as a postback event. `text` is the action's text field,
      which the platform keeps apart from its display text (not used here). */
  datatype PostbackAction = PostbackAction(buttonLabel: string, text: string, data: string)

  datatype ButtonsTemplate = ButtonsTemplate(title: string, text: string, actions: seq<PostbackAction>)

  datatype OutboundMessage =
    | TextMessage(text: string)
    | TemplateMessage(altText: string, template: ButtonsTemplate)

  /** One call to the reply endpoint: the event's single-use reply token and
      the ordered list of messages to deliver with it. */
  datatype ReplyRequest = ReplyRequest(replyToken: string, messages: seq<OutboundMessage>)
}
