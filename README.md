# Invoice bot: a Dafny model of its payment-string core

The bot takes an invoice a user sends in a chat and has a language model
read it. It turns the fields the model finds into a Russian
bank-payment string in the ST00012 format (`ST00012|Name=…|PersonalAcc=…|…`)
and sends that string back as a QR code. This project models the bot's
core in Dafny 4.11 and proves its properties.

Everything the core decides on its own is modelled. The network, the
language model, the file readers and the QR renderer are out of scope.

- **Reading the model's reply** (`main_web_v2.py`, module `ReplyJson`):
  - stripping code fences;
  - the depth and string-aware scan for the first balanced `{…}` object, as an imperative loop proved against a specification function;
  - `parse_gpt_json`, with `json.loads` as a parameter.
- **Normalising the fields** (`main_web_v2.py`, module `Fields`):
  - `REQ_KEYS`;
  - the amount rule `to_kop`;
  - `normalize_fields`, with its Purpose rule (add "; Без НДС" when no VAT mention is present) and its cleaning loop.
- **Building the payment string** (`main_web_v2.py`, module `PaymentBuild`): `build_st00012`, as a method that appends to a list of parts.
- **Checking the payment string** (`processor.py`, module `PaymentCheck`): `_validate_st00012`, as a loop over the segments that fills a dictionary.
- **The round trip** (module `RoundTrip`): the string built from normalised fields passes the check whenever the five account fields are filled and the amount is positive. A zero amount is reported as exactly `missing fields: Sum`.
- **The approval flow** (`processor.py`, module `Processor`):
  - `_parse_json`, and how it differs from the scanner above;
  - the choice of spreadsheet reader by leading bytes;
  - the decision `on_approved_send_qr` takes between the model's payment string and the fallback, with its caption.
- **The webhook bot's sessions** (`main_web_v2.py`, module `Sessions`):
  - the PENDING and RESULTS tables as a class whose methods pop and write them;
  - the missing-field gate of `process_document`;
  - the `ok:`, `no:`, `pay:`, `get:` and `cancel:` callbacks.
- **The invoice store** (`store.py`, module `Store`): an `InvoiceStore` class with `add`, `update` and `get`.
- **The moderation keyboard** (`keyboards.py`, module `Keyboards`): its payloads and layout.
- **The moderation callback** (`moderation.py`, module `Moderation`): it parses the payload and records the decision in the store.

Python's string operations are written out in module `Text`:

- `strip` with Python's whitespace set;
- `find` and `rfind`;
- `split` and `join`;
- `str(int)`;
- `int(str)` with sign, surrounding whitespace and digit-group underscores.

`Wrappers` holds `Option` and `Result`.

What the code does, and does not do, in the payment-string core:

- `_validate_st00012` skips segments without `=` instead of failing on them. It makes no length checks on BIC or the accounts. It accepts Sum `"0"`. It does not look at Purpose beyond the required-and-not-blank rule.
- `build_st00012` writes PayeeINN and KPP before Sum and Purpose. It does not put the seven required keys first.
- `normalize_fields` corrects no OCR look-alike characters and collapses no inner whitespace. It only replaces `|`, `\r` and `\n` by spaces and strips.
- `_parse_json` parses from the first `{` to the last `}`. It does not look for the first balanced object (`Processor.ParsersDiffer`).
- No retry with a stronger model, and no rebuild of the payment string from the fields, exists in this code.

## Model

| member | source | states |
|---|---|---|
| ReplyJson.StripCodeFences | main_web_v2.py:177-183 | the result is stripped; a reply not starting with a fence comes back merely stripped (the fenced case is `ReplyJson.StripFenced`) |
| ReplyJson.StripFenced | main_web_v2.py:180-183 | a body between an opening fence with an optional `json` tag in any letter case and a closing fence, with any whitespace on either side, comes back exactly |
| ReplyJson.StripFencedBody | main_web_v2.py:180-183 | a body fenced by "```json" or "```" lines comes back exactly |
| ReplyJson.StripFencedUpper | main_web_v2.py:180-182 | an upper-case `JSON` tag, a carriage return and spaces around the body are stripped too |
| ReplyJson.FindFirstJsonObject | main_web_v2.py:185-214 | the scanning loop returns what the specification scan returns |
| ReplyJson.FirstCloseIsLeast | main_web_v2.py:196-213 | the scan stops at the first index where depth returns to 0 outside a string |
| ReplyJson.FirstJsonObjectNone | main_web_v2.py:190-214 | no object is found exactly when there is no `{` or the first `{` never closes |
| ReplyJson.FoundObjectIsBalanced | main_web_v2.py:196-213 | a found object starts at the first `{`, ends at a `}`, keeps depth >= 1 inside, and leaves the scanner idle |
| ReplyJson.EscOnlyInString | main_web_v2.py:198-204 | the escape flag is only ever set inside a string |
| ReplyJson.ObjectAfterPrefix | main_web_v2.py:190-213 | a whole object after prose without `{` is found, whatever follows it |
| ReplyJson.ReplyWithProse | main_web_v2.py:216-230 | a reply with prose around one object parses as that object |
| ReplyJson.FencedReply | main_web_v2.py:216-230 | a fenced object parses as that object |
| Fields.OrEmpty | main_web_v2.py:283 | `v or ""`: a truthy value is kept, anything else becomes "" |
| Fields.TextKeysComplete | main_web_v2.py:252 | every key is in REQ_KEYS, and the cleaning loop covers every key but Sum |
| Fields.KeyNameInjective | main_web_v2.py:252 | distinct keys have distinct names |
| Fields.ToKop | main_web_v2.py:254-280 | None gives 0; an int gives itself when positive, 0 otherwise; never negative |
| Fields.ToKopOfDigits | main_web_v2.py:275-278 | a string of digits is read as kopecks |
| Fields.ToKopOfNatString | main_web_v2.py:262-278 | the kopecks a number prints as read back as that number |
| Fields.ToKopOfSeparated | main_web_v2.py:266-272 | "w,k" or "w.k" gives w*100 plus the first two digits of k, padded with zeros |
| Fields.TwoMinorDigits | main_web_v2.py:270 | the minor part is cut or padded to exactly two digits |
| Fields.CommaWinsOverDot | main_web_v2.py:267-269 | with both separators the comma splits, and the dot is dropped from the whole part |
| Fields.SpaceBetweenGroups | main_web_v2.py:264 | a space or a no-break space (U+00A0) between digit groups is removed before the amount is read |
| Fields.NormalizeFields | main_web_v2.py:282-296 | the loop-based normalisation equals the specification `Normalized` |
| Fields.CleanTextFields | main_web_v2.py:293-295 | the cleaning loop cleans exactly the eight text keys |
| Fields.NormalizedShape | main_web_v2.py:282-296 | every key is present; Sum is `Num(to_kop(Sum))`; every other value is clean text; Purpose is non-empty and mentions VAT |
| Fields.PurposeMentionsVat | main_web_v2.py:286-291 | the Purpose after the rule always mentions VAT |
| Fields.PurposeRule | main_web_v2.py:286-291 | an empty Purpose becomes the default; one without VAT gets "; Без НДС"; one with VAT is kept; each is then cleaned |
| Fields.CleanTextIsClean | main_web_v2.py:294 | cleaned text has no `\|`, `\r` or `\n` and is stripped |
| Fields.CleanTextKeepsVat | main_web_v2.py:287-294 | cleaning keeps a VAT mention |
| Fields.NormalizeIdempotent | main_web_v2.py:282-296 | normalising a normalised dictionary changes nothing |
| Fields.AsDict | main_web_v2.py:282-296 | the returned dictionary holds each key's value under its name |
| PaymentBuild.Add | main_web_v2.py:301-303 | `add(k, v)` appends `k=v` exactly when v is truthy |
| PaymentBuild.BuildSt00012 | main_web_v2.py:299-314 | the method's string is the `\|`-join of the header and the entries of the truthy fields in REQ_KEYS order |
| PaymentBuild.BuildEntries | main_web_v2.py:300-313 | part 0 is the header; a field has an entry iff it is truthy; every part is the entry of a truthy field |
| PaymentBuild.BuildKeepsOrder | main_web_v2.py:304-313 | entries appear in REQ_KEYS order |
| PaymentBuild.EntrySplits | main_web_v2.py:303 | an entry splits at its first `=` into the key's name and the value's text |
| PaymentBuild.PartsAvoidBar | main_web_v2.py:314 | with no `\|` in any value, no part holds `\|` |
| PaymentBuild.CollectMember | main_web_v2.py:304-313 | a string is among the collected entries iff some key contributes it |
| PaymentCheck.ValidateSt00012 | processor.py:209-226 | the segment loop returns what the specification `Validate` returns |
| PaymentCheck.HeaderRule | processor.py:210-211 | the header error is given iff the string does not start with "ST00012\|" |
| PaymentCheck.RecordedKeys | processor.py:213-217 | a key is recorded iff some segment has `=` and that key before its first `=` |
| PaymentCheck.LastWins | processor.py:215-217 | a later duplicate key overwrites an earlier one |
| PaymentCheck.MissingMember | processor.py:221 | a name is reported iff it is required and absent or blank |
| PaymentCheck.MissingInOrder | processor.py:221-223 | missing names are listed in ST00012_REQUIRED order |
| PaymentCheck.MissingRule | processor.py:221-223 | the missing-fields error is given iff a required field is absent or blank, listing them joined by ", " |
| PaymentCheck.SumRule | processor.py:224-226 | with nothing missing, the string passes iff Sum is all digits, else the Sum error |
| PaymentCheck.Passing | processor.py:209-226 | header, all required fields non-blank and a digit Sum pass |
| PaymentCheck.NoneMissing | processor.py:221-222 | the missing list is empty iff every required field is present and non-blank |
| PaymentCheck.OnlySumMissing | processor.py:221-223 | with only Sum absent the error is exactly "missing fields: Sum" |
| RoundTrip.BuildThenValidate | main_web_v2.py:299-314 | a built string passes the check when no value holds `\|`, the required fields are non-blank and Sum's text is digits |
| RoundTrip.BuildWithoutSum | main_web_v2.py:311-312 | with a zero Sum the built string fails with exactly "missing fields: Sum" |
| RoundTrip.ReadBack | processor.py:213-217 | the check reads back every truthy field's text under its name |
| RoundTrip.ReadBackAbsent | processor.py:213-217 | a field that is not truthy is read back as absent |
| RoundTrip.NormalizedTextPasses | main_web_v2.py:282-296 | once the five account fields are filled, every required text field of the normalised dictionary passes the check |
| RoundTrip.PositiveSumPasses | main_web_v2.py:311-312 | a positive amount is written and reads back as an integer |
| RoundTrip.NormalizedPasses | main_web_v2.py:282-314 | build after normalise passes `_validate_st00012` when the five account fields are filled and Sum > 0 |
| RoundTrip.ZeroSumRejected | main_web_v2.py:284 | build after normalise with a zero amount fails with exactly "missing fields: Sum" |
| Processor.JsonSpan | processor.py:259-263 | no span iff there is no `{`, no `}` or the last `}` is not after the first `{`; otherwise exactly that slice |
| Processor.SpanBetweenProse | processor.py:259-263 | an object between prose without `{` and prose without `}` is the parsed span |
| Processor.ParsersAgree | processor.py:259-263 | between such prose both parsers take the same object |
| Processor.ParsersDiffer | processor.py:259-263 | on "{} {}" the scanner takes "{}" and `_parse_json` takes the whole text |
| Processor.HeadPrefix | processor.py:147 | testing the first 8 bytes for a signature equals testing the whole file |
| Processor.ExcelDispatch | processor.py:145-159 | ZIP goes to the xlsx reader and OLE2 to the xls reader when they give text; otherwise the CSV reader |
| Processor.OnApprovedSendQr | processor.py:365-404 | the method sends the photo that the specification `Outcome` describes |
| Processor.ModelQrOnlyWhenValid | processor.py:367-386 | the model's string is sent iff it is non-empty, passes the check, has fields and renders; a sent string always passes |
| Processor.FallbackCaptionRule | processor.py:367-398 | the fallback caption is the check error, the notes, the QR error, or nothing, above the fixed text |
| Sessions.MissingForQr | main_web_v2.py:371-374 | the gate loop collects the empty or zero keys among PersonalAcc, BIC, PayeeINN, Sum |
| Sessions.MissingOfMember | main_web_v2.py:371-374 | a key is reported iff it is one of the gate keys and empty or zero |
| Sessions.MissingOfInOrder | main_web_v2.py:371-374 | the reported keys keep the gate's order |
| Sessions.GateOnNormalized | main_web_v2.py:369-374 | on normalised fields a text key is reported iff its cleaned value is empty, Sum iff it is 0 kopecks |
| Sessions.RecordedPaymentPasses | main_web_v2.py:371-386 | a string recorded after the gate passes the check when Name, BankName and CorrespAcc are also filled |
| Sessions.TokenOf | main_web_v2.py:416-417 | the token is everything after the command's `:` |
| Sessions.SessionTables.ProcessDocument | main_web_v2.py:336-391 | RESULTS and the reply are those of the specification `Process`, including the model call or `make_qr` raising; PENDING is untouched |
| Sessions.SessionTables.HandleCallback | main_web_v2.py:409-475 | the tables and reply are those of the specification `Step`; every pending document stays filed under its own token |
| Sessions.SessionTables.constructor | main_web_v2.py:62-63 | both tables start empty, so the token invariant holds |
| Sessions.SessionTables.Confirm | main_web_v2.py:506-517 | a new document is filed in PENDING under its token |
| Sessions.ConfirmedOnce | main_web_v2.py:415-423 | a second `ok:` with the same token finds no session and changes nothing |
| Sessions.PendingPopped | main_web_v2.py:415-430 | `ok:` and `no:` remove the token from PENDING; `no:` leaves RESULTS alone |
| Sessions.ResultPopped | main_web_v2.py:469-473 | `cancel:` removes the token from RESULTS only |
| Sessions.ReadOnlyCommands | main_web_v2.py:432-467 | `pay:` and `get:` change neither table and answer from the entry under the token, if any |
| Sessions.OnlyConfirmationRecords | main_web_v2.py:409-475 | no command but `ok:` adds to RESULTS |
| Sessions.ConfirmationRecords | main_web_v2.py:371-391 | `ok:` records a payment under the token exactly when the gate passes and the QR can be made, with the string built from the normalised fields; when the model call or `make_qr` raises, the token is popped and nothing is recorded or sent |
| Store.Added | store.py:11-12 | `add` replaces the entry for the id and keeps every other |
| Store.Updated | store.py:15-18 | `update` changes only a known id and never the set of ids |
| Store.RunKeepsIds | store.py:11-18 | no sequence of calls removes an entry |
| Store.RunOthersUntouched | store.py:11-18 | calls about other ids never touch or create an id's entry |
| Store.UpdatesKeepIds | store.py:15-18 | updates alone never add an id |
| Store.InvoiceStore.constructor | store.py:6-8 | a new store holds no invoices |
| Store.InvoiceStore.Add | store.py:11-12 | the invoices become `Added(old, id, status, reason)`; defaults are "pending" and "" |
| Store.InvoiceStore.Update | store.py:15-18 | the invoices become `Updated(old, id, status, reason)`; reason defaults to "" |
| Store.InvoiceStore.Get | store.py:21-22 | the entry for the id, None when absent |
| Store.StoreInvoice | store.py:29-30 | `store_invoice` is `add` with an empty reason |
| Keyboards.Payload | keyboards.py:10-11 | the payload splits at `:` into the action and the two numbers as printed |
| Keyboards.ModerationKeyboard | keyboards.py:9-19 | one row: approve button first, reject second, with their payloads |
| Keyboards.DefaultPayloads | keyboards.py:9-11 | with default arguments the payloads are "approve:0:0" and "reject:0:0" |
| Moderation.ParseCallback | moderation.py:13-16 | parsing succeeds iff there are at least three parts and parts 1 and 2 are integers; the action is the text before the first `:` |
| Moderation.HandleModeration | moderation.py:13-28 | an unreadable payload changes nothing; otherwise the store and the shown status follow `Moderated` and `Shown` |
| Moderation.ModerationRule | moderation.py:18-28 | approve or reject of a known message sets its status and clears its reason; other actions and unknown messages change nothing |
| Moderation.PayloadRoundTrip | moderation.py:13-16 | a keyboard payload parses back to its action, chat and message, negative ids included |
| Moderation.KeyboardMatchesHandler | moderation.py:6-7 | the payloads the keyboard writes (keyboards.py lines 4-5 and 10-11) parse to the actions the handler tests: the first button approves and the second rejects, for the keyboard's chat and message |
| Text.TrimBounds | main_web_v2.py:179 | `strip()` keeps a slice of the input that neither starts nor ends with whitespace, and removes only whitespace before and after it |
| Text.RFind | processor.py:260 | `rfind` gives the last index holding the character, -1 when absent |
| Text.SplitJoin | processor.py:214 | splitting a join on a separator no part holds gives the parts back |
| Text.ParseIntOfIntToString | moderation.py:15-16 | `int(str(i)) == i`, negative numbers included |

## Left out

- Network, chat and HTTP plumbing are left out. This covers sending messages and photos, downloading files, the Flask webhook, and `handle_update`'s filters. They are I/O. The one exception is the PENDING write in `Sessions.SessionTables.Confirm`, whose token is drawn at random, so the token is a parameter.
- Calls to the language model are left out. The model's reply is a string parameter, and `(st, fields, notes)` are parameters of `Processor.OnApprovedSendQr`.
- `json.loads` is a function parameter of `ReplyJson.ParseGptJson` and `Processor.ParseJson`. JSON values are modelled as null, integers and strings only; floats, booleans, lists and objects are not.
- File readers (PDF, xlsx, xls, CSV sniffing) are function parameters of `Processor.ExcelToText`. The QR renderer is not modelled.
- Floats are left out: `_normalize_money`, `_pre_hint` and every `Sum/100:.2f` caption.
- Sessions.SessionTables.HandleCallback: replies are modelled as a datatype naming which message is sent, not the message texts. `int(chat["id"])` is not modelled.
- Sessions.SessionTables.ProcessDocument: the QR image and the caption are not modelled. The download and the model call are one `Download` parameter (with a case for the model call raising), whether `make_qr` raises is the `qrFails` parameter, and the "short text" branch, which does nothing, is omitted. An exception from `send_text` or `send_doc` is not modelled.
- Processor.OnApprovedSendQr: the caption from the fields (`_caption_from_fields`, float formatting) is not modelled. An exception while rendering or sending is the `qrError` parameter.
- Processor.FallbackCaptionRule: it does not state that the fixed fallback payment string passes `_validate_st00012`, because comparing that 150-character literal would cost too much to prove.
- Moderation.HandleModeration: the edit of the chat message and its error reply are not modelled. An unreadable payload, where Python raises, is modelled as no change and no text.
- The store↔processor link is left out: `on_approved_send_qr` reads a `"src"` key that `InvoiceStore` never writes, and the model does not connect the two.
- `_validate_st00012`'s `except` branch ("failed to parse key=value pairs") cannot be reached: `split("=", 1)` on a segment holding `=` always gives two parts. It is not modelled.
- Unicode is limited:
  - Digits are ASCII only; Python's `\d` and `\D` also match other scripts' digits.
  - The `НДС` test covers the characters whose Unicode upper case is `Н`, `Д` or `С`, not full case mapping.
- Text.ParseInt: it accepts ASCII digits with single underscores between them, an optional sign and surrounding whitespace. It does not accept other scripts' digits, which Python's `int` does.
