/**
 The echo bot's webhook: which reply each decoded event gets, and whether a
 callback request is rejected or dispatched.

 Each handler either builds exactly one reply request, answering with the
 triggering event's reply token, or stays silent. The outgoing call to the
 reply endpoint is represented by the returned `ReplyRequest`.
 */
module EchoBot {
  import opened Wrappers
  import opened Messaging
  import opened Webhooks

  /** The welcome text sent to every new follower. */
  const WelcomeText: string := "嗨!我是自言自語機器人，感謝您的加入！正在修改程式碼，可能會有Bug喔!!😊"

  /** Put in front of every echoed text message. */
  const EchoPrefix: string := "您傳送的訊息是："

  /** The one text message answered with a buttons template instead of an echo. */
  const TemplateTrigger: string := "postback"

  /** The data carried by the template's button, and the only postback data acknowledged. */
  const PostbackData: string := "postback_action"

  /** The acknowledgment sent for a postback carrying `PostbackData`. */
  const PostbackAck: string := "Postback 已觸發！"

  /** The buttons template message sent in answer to `TemplateTrigger`. */
  const ButtonsMessage: OutboundMessage :=
    TemplateMessage(
      "Postback Sample",
      ButtonsTemplate(
        "Postback Sample",
        "Postback Action",
        [PostbackAction("Click Me!", "You clicked the button!", PostbackData)]))

  /** The text of an echo reply: the prefix followed by the user's text, untouched. */
  function EchoText(text: string): (r: string)
    ensures |r| == |EchoPrefix| + |text|
    ensures r[..|EchoPrefix|] == EchoPrefix
    ensures r[|EchoPrefix|..] == text
  {
    EchoPrefix + text
  }

  /** The follow handler: always the welcome text. */
  function HandleFollow(e: Event): (r: ReplyRequest)
    requires e.FollowEvent?
    ensures r.replyToken == e.replyToken && |r.messages| == 1
    ensures r.messages[0] == TextMessage(WelcomeText)
  {
    ReplyRequest(e.replyToken, [TextMessage(WelcomeText)])
  }

  /** The text-message handler: the buttons template for the exact text
      `TemplateTrigger`, the echo of the text otherwise. */
  function HandleMessage(e: Event): (r: ReplyRequest)
    requires e.MessageEvent? && e.message.TextContent?
    ensures r.replyToken == e.replyToken && |r.messages| == 1
    ensures r.messages[0].TemplateMessage? <==> e.message.text == TemplateTrigger
    ensures e.message.text == TemplateTrigger ==> r.messages[0] == ButtonsMessage
    ensures e.message.text != TemplateTrigger ==>
      r.messages[0].TextMessage? && r.messages[0].text == EchoPrefix + e.message.text
  {
    if e.message.text == TemplateTrigger then
      ReplyRequest(e.replyToken, [ButtonsMessage])
    else
      ReplyRequest(e.replyToken, [TextMessage(EchoText(e.message.text))])
  }

  /** The postback handler: the acknowledgment for the exact data
      `PostbackData`, silence for any other data. */
  function HandlePostback(e: Event): (r: Option<ReplyRequest>)
    requires e.PostbackEvent?
    ensures r.Some? <==> e.data == PostbackData
    ensures r.Some? ==>
      r.value.replyToken == e.replyToken && r.value.messages == [TextMessage(PostbackAck)]
  {
    if e.data == PostbackData then
      Some(ReplyRequest(e.replyToken, [TextMessage(PostbackAck)]))
    else
      None
  }

  /** The handler table: follow events, text message events and postback
      events have a handler; every other event, and a message event whose
      content is not text, has none and gets no reply. */
  function Reply(e: Event): (r: Option<ReplyRequest>)
    ensures r.Some? ==> !e.UnsupportedEvent? && r.value.replyToken == e.replyToken
    ensures r.Some? ==> |r.value.messages| == 1
  {
    match e
    case FollowEvent(_) => Some(HandleFollow(e))
    case MessageEvent(_, TextContent(_)) => Some(HandleMessage(e))
    case MessageEvent(_, OtherContent(_)) => None
    case PostbackEvent(_, _) => HandlePostback(e)
    case UnsupportedEvent(_) => None
  }

  /** The events that get no reply at all, stated independently of the handlers. */
  predicate Unanswered(e: Event)
  {
    || e.UnsupportedEvent?
    || (e.MessageEvent? && e.message.OtherContent?)
    || (e.PostbackEvent? && e.data != PostbackData)
  }

  /** A follow event is answered with the welcome text, byte for byte. */
  lemma FollowReply(token: string)
    ensures Reply(FollowEvent(token)) ==
      Some(ReplyRequest(token, [TextMessage("嗨!我是自言自語機器人，感謝您的加入！正在修改程式碼，可能會有Bug喔!!😊")]))
  {
  }

  /** The text "postback" is answered with the one-button template. */
  lemma TemplateReply(token: string)
    ensures Reply(MessageEvent(token, TextContent("postback"))) ==
      Some(ReplyRequest(token, [
        TemplateMessage(
          "Postback Sample",
          ButtonsTemplate(
            "Postback Sample",
            "Postback Action",
            [PostbackAction("Click Me!", "You clicked the button!", "postback_action")]))]))
  {
  }

  /** Any other text is echoed behind the prefix, with no other change: the
      reply ends with the text and is exactly the prefix longer. */
  lemma EchoReply(token: string, text: string)
    requires text != "postback"
    ensures Reply(MessageEvent(token, TextContent(text))) ==
      Some(ReplyRequest(token, [TextMessage("您傳送的訊息是：" + text)]))
    ensures var m := Reply(MessageEvent(token, TextContent(text))).value.messages[0].text;
      |m| == |"您傳送的訊息是："| + |text| && m[|m| - |text|..] == text
  {
  }

  /** The template branch and the echo branch exclude each other: a text
      message gets a template exactly when it is "postback", and a text
      reply exactly when it is anything else. */
  lemma TemplateIffTrigger(token: string, text: string)
    ensures Reply(MessageEvent(token, TextContent(text))).Some?
    ensures var m := Reply(MessageEvent(token, TextContent(text))).value.messages[0];
      (m.TemplateMessage? <==> text == "postback") && (m.TextMessage? <==> text != "postback")
  {
  }

  /** A postback is acknowledged only when its data is exactly "postback_action". */
  lemma PostbackReply(token: string, data: string)
    ensures data == "postback_action" ==>
      Reply(PostbackEvent(token, data)) == Some(ReplyRequest(token, [TextMessage("Postback 已觸發！")]))
    ensures data != "postback_action" ==> Reply(PostbackEvent(token, data)) == None
  {
  }

  /** Round trip: every button of the template the bot sends for "postback",
      once tapped, comes back as a postback that the bot acknowledges. */
  lemma ButtonRoundTrip(token: string, nextToken: string)
    ensures var m := Reply(MessageEvent(token, TextContent(TemplateTrigger))).value.messages[0];
      m.TemplateMessage? && |m.template.actions| == 1 &&
      forall i :: 0 <= i < |m.template.actions| ==>
        Reply(PostbackEvent(nextToken, m.template.actions[i].data)) ==
          Some(ReplyRequest(nextToken, [TextMessage(PostbackAck)]))
  {
  }

  /** An event gets no reply exactly when it has no handler or is a postback
      with other data. */
  lemma NoReplyIff(e: Event)
    ensures Reply(e).None? <==> Unanswered(e)
  {
  }

  /** The reply requests sent while handling one batch of events, in order:
      one per answered event. */
  function Replies(events: seq<Event>): (rs: seq<ReplyRequest>)
    ensures |rs| <= |events|
    ensures forall i :: 0 <= i < |rs| ==> |rs[i].messages| == 1
  {
    if events == [] then []
    else
      (match Reply(events[0]) case Some(r) => [r] case None => []) + Replies(events[1..])
  }

  /** Handling a batch is handling its parts one after the other. */
  lemma {:induction false} RepliesAppend(a: seq<Event>, b: seq<Event>)
    ensures Replies(a + b) == Replies(a) + Replies(b)
  {
    if a == [] {
      assert a + b == b;
    } else {
      assert (a + b)[1..] == a[1..] + b;
      RepliesAppend(a[1..], b);
    }
  }

  /** Every reply sent for a batch answers one of its events, with that
      event's reply token. */
  lemma {:induction false} RepliesAnswerEvents(events: seq<Event>)
    ensures forall i :: 0 <= i < |Replies(events)| ==>
      exists j :: 0 <= j < |events| && Reply(events[j]) == Some(Replies(events)[i])
    ensures forall i :: 0 <= i < |Replies(events)| ==>
      exists j :: 0 <= j < |events| && !events[j].UnsupportedEvent? &&
        events[j].replyToken == Replies(events)[i].replyToken
  {
    if events != [] {
      var tail := events[1..];
      RepliesAnswerEvents(tail);
      var head := match Reply(events[0]) case Some(r) => [r] case None => [];
      var rs := Replies(events);
      assert rs == head + Replies(tail);
      forall i | 0 <= i < |rs|
        ensures exists j :: 0 <= j < |events| && Reply(events[j]) == Some(rs[i])
        ensures exists j ::
                  0 <= j < |events| && !events[j].UnsupportedEvent? && events[j].replyToken == rs[i].replyToken
      {
        var j: int;
        if i < |head| {
          j := 0;
        } else {
          var k :| 0 <= k < |tail| && Reply(tail[k]) == Some(Replies(tail)[i - |head|]);
          j := k + 1;
        }
        assert Reply(events[j]) == Some(rs[i]);
      }
    } else {
      assert Replies(events) == [];
    }
  }

  /** Conversely, every answered event's reply is sent exactly once, in its
      place: right after the replies to the events before it. */
  lemma AnsweredEventReplied(events: seq<Event>, j: int)
    requires 0 <= j < |events| && Reply(events[j]).Some?
    ensures |Replies(events[..j])| < |Replies(events)|
    ensures |Replies(events[..j + 1])| == |Replies(events[..j])| + 1
    ensures Replies(events)[|Replies(events[..j])|] == Reply(events[j]).value
  {
    assert events == events[..j] + events[j..];
    RepliesAppend(events[..j], events[j..]);
    assert events[..j + 1] == events[..j] + [events[j]];
    RepliesAppend(events[..j], [events[j]]);
  }

  /** A batch produces no reply at all exactly when none of its events is answered. */
  lemma {:induction false} NoRepliesIff(events: seq<Event>)
    ensures Replies(events) == [] <==> forall j :: 0 <= j < |events| ==> Unanswered(events[j])
  {
    if events != [] {
      NoRepliesIff(events[1..]);
      NoReplyIff(events[0]);
      if Replies(events) == [] {
        forall j | 0 <= j < |events| ensures Unanswered(events[j]) {
          if j > 0 {
            assert events[j] == events[1..][j - 1];
          }
        }
      }
    }
  }

  /** What the callback route answers: 'OK' once the whole batch has been
      handled, or an error status with nothing sent. */
  datatype Response =
    | Ok(body: string, sent: seq<ReplyRequest>)
    | Aborted(status: int)

  /** The replies a response has caused to be sent. */
  function SentBy(r: Response): (sent: seq<ReplyRequest>)
  {
    if r.Ok? then r.sent else []
  }

  /** The callback route. `signature` is the X-Line-Signature header (None
      when it is absent); `verify` stands for the SDK's signature check and
      `decode` for its decoding of the body into events (None when the body
      does not decode). A missing header or a failed signature check aborts
      with 400 before any handler runs; a body that does not decode raises
      an exception the route does not catch, which the server turns into 500. */
  function Callback(verify: (string, string) -> bool, decode: string -> Option<seq<Event>>,
                    signature: Option<string>, body: string): (r: Response)
    ensures r.Ok? <==> signature.Some? && verify(body, signature.value) && decode(body).Some?
    ensures r.Ok? ==> r.body == "OK" && r.sent == Replies(decode(body).value)
    ensures r.Aborted? && (signature.None? || !verify(body, signature.value)) ==> r.status == 400
    ensures r.Aborted? && signature.Some? && verify(body, signature.value) ==> r.status == 500
  {
    match signature
    case None => Aborted(400)
    case Some(sig) =>
      if !verify(body, sig) then Aborted(400)
      else
        match decode(body)
        case None => Aborted(500)
        case Some(events) => Ok("OK", Replies(events))
  }

  /** Fail closed: whatever the events, a request whose signature is missing
      or does not verify sends no reply. */
  lemma FailClosed(verify: (string, string) -> bool, decode: string -> Option<seq<Event>>,
                   signature: Option<string>, body: string)
    requires signature.None? || !verify(body, signature.value)
    ensures Callback(verify, decode, signature, body) == Aborted(400)
    ensures SentBy(Callback(verify, decode, signature, body)) == []
  {
  }

  /** Every reply a callback sends answers one event of the verified batch,
      with that event's token and exactly one message. */
  lemma CallbackRepliesAnswerEvents(verify: (string, string) -> bool, decode: string -> Option<seq<Event>>,
                                    signature: Option<string>, body: string)
    ensures var sent := SentBy(Callback(verify, decode, signature, body));
      sent != [] ==> signature.Some? && verify(body, signature.value) && decode(body).Some?
    ensures var sent := SentBy(Callback(verify, decode, signature, body));
      forall i :: 0 <= i < |sent| ==>
        |sent[i].messages| == 1 &&
        exists j :: 0 <= j < |decode(body).value| && Reply(decode(body).value[j]) == Some(sent[i])
  {
    if decode(body).Some? {
      RepliesAnswerEvents(decode(body).value);
    }
  }

  /** A verified batch with one event of each kind, handled in order. */
  lemma BatchScenario(verify: (string, string) -> bool, signature: string, body: string)
    requires verify(body, signature)
    ensures var events := [
        FollowEvent("tok1"),
        MessageEvent("tok2", TextContent("hello")),
        MessageEvent("tok3", TextContent("postback")),
        PostbackEvent("tok4", "postback_action"),
        PostbackEvent("tok5", "other"),
        MessageEvent("tok6", OtherContent("sticker")),
        UnsupportedEvent("unfollow")];
      Callback(verify, _ => Some(events), Some(signature), body) ==
        Ok("OK", [
          ReplyRequest("tok1", [TextMessage(WelcomeText)]),
          ReplyRequest("tok2", [TextMessage("您傳送的訊息是：hello")]),
          ReplyRequest("tok3", [ButtonsMessage]),
          ReplyRequest("tok4", [TextMessage("Postback 已觸發！")])])
  {
    var events := [
        FollowEvent("tok1"),
        MessageEvent("tok2", TextContent("hello")),
        MessageEvent("tok3", TextContent("postback")),
        PostbackEvent("tok4", "postback_action"),
        PostbackEvent("tok5", "other"),
        MessageEvent("tok6", OtherContent("sticker")),
        UnsupportedEvent("unfollow")];
    var answered := [events[0], events[1], events[2], events[3]];
    var silent := [events[4], events[5], events[6]];
    assert events == answered + silent;
    RepliesAppend(answered, silent);
    NoRepliesIff(silent);
    assert Replies(answered[3..]) == [ReplyRequest("tok4", [TextMessage(PostbackAck)])];
    assert Replies(answered[2..]) == [ReplyRequest("tok3", [ButtonsMessage])] + Replies(answered[3..]);
    assert Replies(answered[1..]) == [ReplyRequest("tok2", [TextMessage(EchoText("hello"))])] + Replies(answered[2..]);
    assert EchoText("hello") == "您傳送的訊息是：hello";
    assert Replies(events) == [
          ReplyRequest("tok1", [TextMessage(WelcomeText)]),
          ReplyRequest("tok2", [TextMessage("您傳送的訊息是：hello")]),
          ReplyRequest("tok3", [ButtonsMessage]),
          ReplyRequest("tok4", [TextMessage("Postback 已觸發！")])];
  }
}
