/**
 * The moderation keyboard (keyboards.py): one row with an approve button
 * and a reject button, whose callback data name the action, the chat and
 * the message.
 */
module Keyboards {
  import opened Text

  const ApproveCb := "approve"

  const RejectCb := "reject"

  const ApproveLabel := "✔️ Согласовать"

  const RejectLabel := "✖️ Отклонить"

  /** `InlineKeyboardButton(text, callback_data=…)` */
  datatype Button = Button(text: string, callbackData: string)

  /**
   * `f"{action}:{chat_id}:{message_id}"`: split at `:`, it gives back the
   * action and the two numbers as Python prints them.
   */
  function Payload(action: string, chatId: int, messageId: int): (r: string)
    requires ':' !in action
    ensures Split(r, ':') == [action, IntToString(chatId), IntToString(messageId)]
  {
    var parts := [action, IntToString(chatId), IntToString(messageId)];
    IntToStringHasNoChar(chatId, ':');
    IntToStringHasNoChar(messageId, ':');
    SplitJoin(parts, ':');
    JoinThree(action, IntToString(chatId), IntToString(messageId), ":");
    action + ":" + IntToString(chatId) + ":" + IntToString(messageId)
  }

  /** `moderation_keyboard(chat_id=0, message_id=0)`: one row, approve first, reject second. */
  function ModerationKeyboard(chatId: int := 0, messageId: int := 0): (k: seq<seq<Button>>)
    ensures |k| == 1 && |k[0]| == 2
    ensures k[0][0] == Button(ApproveLabel, Payload(ApproveCb, chatId, messageId))
    ensures k[0][1] == Button(RejectLabel, Payload(RejectCb, chatId, messageId))
  {
    [[Button(ApproveLabel, Payload(ApproveCb, chatId, messageId)),
      Button(RejectLabel, Payload(RejectCb, chatId, messageId))]]
  }

  /** With the default arguments the payloads are `approve:0:0` and `reject:0:0`. */
  lemma DefaultPayloads()
    ensures ModerationKeyboard()[0][0].callbackData == "approve:0:0"
    ensures ModerationKeyboard()[0][1].callbackData == "reject:0:0"
  {
    ZeroPrinted();
    assert Payload(ApproveCb, 0, 0) == "approve:0:0" by {
      assert Payload(ApproveCb, 0, 0) == "approve" + ":" + "0" + ":" + "0";
    }
    assert Payload(RejectCb, 0, 0) == "reject:0:0" by {
      assert Payload(RejectCb, 0, 0) == "reject" + ":" + "0" + ":" + "0";
    }
  }

  lemma ZeroPrinted()
    ensures IntToString(0) == "0"
  {
    assert NatToString(0) == "0";
  }
}
