/**
 * The moderation callback (moderation.py): read the action, the chat and the
 * message from the button's callback data, record the decision in the
 * invoice store and show the new status.
 */
module Moderation {
  import opened Wrappers
  import opened Text
  import opened Store
  import Keyboards

  const ApproveCb := "approve"

  const RejectCb := "reject"

  const ApprovedStatus := "approved"

  const RejectedStatus := "rejected"

  const ApprovedShown := "✅ Согласован"

  const RejectedShown := "❌ Отклонён"

  /** What is shown when the message has no entry. */
  const UnknownShown := "?"

  const ShownPrefix := "Статус счёта обновлён: "

  /** The three fields of the callback data. */
  datatype Callback = Callback(action: string, chatId: int, messageId: int)

  /**
   * `data = query.data.split(":")`, then `data[0]`, `int(data[1])` and
   * `int(data[2])`; None where Python raises (fewer than three parts, or a
   * part that is not an integer). Parts after the third are ignored.
   */
  function ParseCallback(data: string): (r: Option<Callback>)
    ensures r.Some? <==> |Split(data, ':')| >= 3 && ParseInt(Split(data, ':')[1]).Some? && ParseInt(Split(data, ':')[2]).Some?
    ensures r.Some? ==> ':' !in r.value.action && StartsWith(data, r.value.action + ":")
  {
    var parts := Split(data, ':');
    if |parts| < 3 then None
    else
      match (ParseInt(parts[1]), ParseInt(parts[2]))
      case (Some(chatId), Some(messageId)) =>
        assert StartsWith(data, parts[0] + ":") by { SplitHead(data, ':'); }
        Some(Callback(parts[0], chatId, messageId))
      case _ => None
  }

  /** The status shown after the callback, read from the invoices before they change. */
  function Shown(m: map<int, Entry>, cb: Callback): string {
    if cb.action == ApproveCb then ApprovedShown
    else if cb.action == RejectCb then RejectedShown
    else if cb.messageId in m then m[cb.messageId].status
    else UnknownShown
  }

  /** The invoices after the callback. */
  function Moderated(m: map<int, Entry>, cb: Callback): map<int, Entry> {
    if cb.action == ApproveCb then Updated(m, cb.messageId, ApprovedStatus, "")
    else if cb.action == RejectCb then Updated(m, cb.messageId, RejectedStatus, "")
    else m
  }

  /**
   * `handle_moderation`: the text the message is edited to, None where the
   * callback data cannot be read (the handler raises before touching the
   * store).
   */
  method HandleModeration(store: InvoiceStore, data: string) returns (text: Option<string>)
    modifies store
    ensures match ParseCallback(data)
            case None => text == None && store.invoices == old(store.invoices)
            case Some(cb) => text == Some(ShownPrefix + Shown(old(store.invoices), cb))
                             && store.invoices == Moderated(old(store.invoices), cb)
  {
    var cb := ParseCallback(data);
    if cb.None? {
      return None;
    }
    var action, messageId := cb.value.action, cb.value.messageId;
    var invoice := store.Get(messageId);
    var status := if invoice.Some? then invoice.value.status else UnknownShown;
    var newStatus;
    if action == ApproveCb {
      store.Update(messageId, ApprovedStatus);
      newStatus := ApprovedShown;
    } else if action == RejectCb {
      store.Update(messageId, RejectedStatus);
      newStatus := RejectedShown;
    } else {
      newStatus := status;
    }
    return Some(ShownPrefix + newStatus);
  }

  /**
   * Approving or rejecting a known message sets its status and clears its
   * reason; any other action, and any unknown message, leaves the invoices
   * as they were; no entry of another message changes.
   */
  lemma ModerationRule(m: map<int, Entry>, cb: Callback)
    ensures Moderated(m, cb).Keys == m.Keys
    ensures cb.messageId in m && cb.action == ApproveCb ==> Moderated(m, cb)[cb.messageId] == Entry(ApprovedStatus, "")
    ensures cb.messageId in m && cb.action == RejectCb ==> Moderated(m, cb)[cb.messageId] == Entry(RejectedStatus, "")
    ensures cb.messageId !in m || (cb.action != ApproveCb && cb.action != RejectCb) ==> Moderated(m, cb) == m
    ensures forall j :: j in m && j != cb.messageId ==> Moderated(m, cb)[j] == m[j]
  {
  }

  /** The callback data of a keyboard button reads back as the action, chat and message it was made from, negative ids included. */
  lemma PayloadRoundTrip(action: string, chatId: int, messageId: int)
    requires ':' !in action
    ensures ParseCallback(Keyboards.Payload(action, chatId, messageId)) == Some(Callback(action, chatId, messageId))
  {
    ParseIntOfIntToString(chatId);
    ParseIntOfIntToString(messageId);
  }

  /**
   * The keyboard's buttons carry the actions this handler acts on: the
   * first approves, the second rejects, and both name the chat and the
   * message the keyboard was made for.
   */
  lemma KeyboardMatchesHandler(chatId: int, messageId: int)
    ensures ParseCallback(Keyboards.ModerationKeyboard(chatId, messageId)[0][0].callbackData) == Some(Callback(ApproveCb, chatId, messageId))
    ensures ParseCallback(Keyboards.ModerationKeyboard(chatId, messageId)[0][1].callbackData) == Some(Callback(RejectCb, chatId, messageId))
  {
    var k := Keyboards.ModerationKeyboard(chatId, messageId);
    assert Keyboards.ApproveCb == ApproveCb && ':' !in ApproveCb;
    assert Keyboards.RejectCb == RejectCb && ':' !in RejectCb;
    PayloadRoundTrip(ApproveCb, chatId, messageId);
    PayloadRoundTrip(RejectCb, chatId, messageId);
  }
}
