/**
 The inbound side: webhook events as the platform's SDK hands them to the bot
 once it has checked the signature and decoded the request body.
 */
module Webhooks {

  /** What a message event carries. Only text has a handler in the bot; every
      other kind (image, sticker, location, ...) is kept as its kind name. */
  datatype MessageContent =
    | TextContent(text: string)
    | OtherContent(kind: string)

  /** A decoded webhook event. Follow, message and postback events carry the
      reply token the bot must answer with; any other event type (unfollow,
      join, beacon, ...) is kept only by its type name. */
  datatype Event =
    | FollowEvent(replyToken: string)
    | MessageEvent(replyToken: string, message: MessageContent)
    | PostbackEvent(replyToken: string, data: string)
    | UnsupportedEvent(kind: string)
}
