/**
 * The approval flow's own handling of a document (processor.py): reading
 * the model's reply with `_parse_json`, choosing a reader for a spreadsheet
 * by its leading bytes, and deciding which QR code `on_approved_send_qr`
 * sends and with which caption.
 */
module Processor {
  import opened Wrappers
  import opened Text
  import opened Fields
  import opened PaymentCheck
  import ReplyJson

  // ------------------------------------------------------------ _parse_json

  /** Why `_parse_json` raises: no `{ ... }` span, or `json.loads` rejected the span. */
  datatype ParseError = NoObject | BadJson

  /**
   * The text `_parse_json` hands to `json.loads`: from the first `{` to the
   * last `}`, both included; None where it raises "no JSON object found".
   */
  function JsonSpan(text: string): (r: Option<string>)
    ensures r == None <==> '{' !in text || '}' !in text || RFind(text, '}') <= Find(text, '{')
    ensures r.Some? ==> && |r.value| >= 2 && r.value[0] == '{' && r.value[|r.value| - 1] == '}'
                        && r.value == text[Find(text, '{')..RFind(text, '}') + 1]
  {
    var s, e := Find(text, '{'), RFind(text, '}');
    if s == -1 || e == -1 || e <= s then None else Some(text[s..e + 1])
  }

  /** `_parse_json(text)`, where `loads` stands for `json.loads` (None where it raises). */
  function ParseJson<V>(text: string, loads: string -> Option<V>): Result<V, ParseError> {
    match JsonSpan(text)
    case None => Failure(NoObject)
    case Some(span) =>
      match loads(span)
      case None => Failure(BadJson)
      case Some(v) => Success(v)
  }

  /**
   * An object between prose without `{` and prose without `}` is exactly the
   * span handed to `json.loads`.
   */
  lemma SpanBetweenProse(p: string, o: string, q: string)
    requires '{' !in p && '}' !in q
    requires |o| >= 2 && o[0] == '{' && o[|o| - 1] == '}'
    ensures JsonSpan(p + o + q) == Some(o)
  {
    var t := p + o + q;
    FirstBraceAfter(p, o, q);
    LastBraceBefore(p, o, q);
    assert t[|p|..|p| + |o|] == o;
  }

  lemma FirstBraceAfter(p: string, o: string, q: string)
    requires '{' !in p && o != [] && o[0] == '{'
    ensures Find(p + o + q, '{') == |p|
  {
    FindAfterPrefix(p, '{', o[1..] + q);
    assert p + o + q == p + ['{'] + (o[1..] + q);
  }

  lemma LastBraceBefore(p: string, o: string, q: string)
    requires '}' !in q && o != [] && o[|o| - 1] == '}'
    ensures RFind(p + o + q, '}') == |p| + |o| - 1
  {
    var a := p + o[..|o| - 1];
    var t := a + ['}'] + q;
    assert p + o + q == t;
    assert t[|a|] == '}';
    assert t[|a| + 1..] == q;
  }

  /**
   * Where the two parsers of the model's reply agree: an object the scanner
   * of main_web_v2.py finds whole, between prose without `{` and prose
   * without `}`, is also the span processor.py parses.
   */
  lemma ParsersAgree(p: string, o: string, q: string)
    requires '{' !in p && '}' !in q
    requires ReplyJson.FirstJsonObject(o) == Some(o)
    ensures ReplyJson.FirstJsonObject(p + o + q) == Some(o)
    ensures JsonSpan(p + o + q) == Some(o)
  {
    var _, _ := ReplyJson.FoundObjectIsBalanced(o);
    ReplyJson.ObjectAfterPrefix(p, o, q);
    SpanBetweenProse(p, o, q);
  }

  /** Where they differ: with two objects in the reply, `_parse_json` hands both and the text between to `json.loads`. */
  lemma ParsersDiffer()
    ensures ReplyJson.FirstJsonObject("{} {}") == Some("{}")
    ensures JsonSpan("{} {}") == Some("{} {}")
  {
    var t := "{} {}";
    assert Find(t, '{') == 0;
    assert ReplyJson.StateAfter(t, 0, 1) == ReplyJson.ScanState(1, false, false);
    assert ReplyJson.ClosesAt(t, 0, 1);
    ReplyJson.FirstCloseIsLeast(t, 0, 0, 1);
    assert t[0..2] == "{}";
    assert ReplyJson.FirstJsonObject(t) == Some("{}");
    assert RFind(t, '}') == 4;
    assert t[0..5] == t;
    assert JsonSpan(t) == Some(t);
  }

  // -------------------------------------------------------- _excel_to_text

  newtype byte = x: int | 0 <= x < 256

  /** `s.startswith(p)` on bytes. */
  predicate HasPrefix(s: seq<byte>, p: seq<byte>) {
    |p| <= |s| && s[..|p|] == p
  }

  /** The ZIP signature that opens an xlsx file: `PK\x03\x04`. */
  const ZipMagic: seq<byte> := [0x50, 0x4B, 0x03, 0x04]

  /** The OLE2 signature that opens an xls file. */
  const Ole2Magic: seq<byte> := [0xD0, 0xCF, 0x11, 0xE0, 0xA1, 0xB1, 0x1A, 0xE1]

  /** `file_bytes[:8]` */
  function Head(b: seq<byte>): (r: seq<byte>)
    ensures |r| <= 8
  {
    if |b| <= 8 then b else b[..8]
  }

  /**
   * `_excel_to_text(b)` with the three readers as parameters: the xlsx
   * reader for a ZIP signature, the xls reader for an OLE2 signature, each
   * only when it gives text, and the CSV reader otherwise.
   */
  function ExcelToText(b: seq<byte>, xlsx: seq<byte> -> string, xls: seq<byte> -> string, csv: seq<byte> -> string): string {
    var b0 := Head(b);
    if HasPrefix(b0, ZipMagic) && xlsx(b) != [] then xlsx(b)
    else if HasPrefix(b0, Ole2Magic) && xls(b) != [] then xls(b)
    else csv(b)
  }

  /** Reading the signature from the first eight bytes is reading it from the whole file. */
  lemma HeadPrefix(b: seq<byte>, p: seq<byte>)
    requires |p| <= 8
    ensures HasPrefix(Head(b), p) <==> HasPrefix(b, p)
  {
  }

  /**
   * The reader chosen for a file: the xlsx reader exactly when the file
   * starts with the ZIP signature and that reader gives text; the xls
   * reader exactly when it starts with the OLE2 signature and that reader
   * gives text; the CSV reader in every other case.
   */
  lemma ExcelDispatch(b: seq<byte>, xlsx: seq<byte> -> string, xls: seq<byte> -> string, csv: seq<byte> -> string)
    ensures HasPrefix(b, ZipMagic) && xlsx(b) != [] ==> ExcelToText(b, xlsx, xls, csv) == xlsx(b)
    ensures HasPrefix(b, Ole2Magic) && xls(b) != [] ==> ExcelToText(b, xlsx, xls, csv) == xls(b)
    ensures !(HasPrefix(b, ZipMagic) && xlsx(b) != []) && !(HasPrefix(b, Ole2Magic) && xls(b) != []) ==>
              ExcelToText(b, xlsx, xls, csv) == csv(b)
  {
    HeadPrefix(b, ZipMagic);
    HeadPrefix(b, Ole2Magic);
    if HasPrefix(b, Ole2Magic) {
      assert b[0] == 0xD0;
      assert !HasPrefix(b, ZipMagic);
    }
  }

  // --------------------------------------------------- on_approved_send_qr

  /** The payment string sent when no working one could be made. */
  const FallbackPayload := "ST00012|Name=ERROR|PersonalAcc=00000000000000000000|BankName=ERROR|BIC=000000000|CorrespAcc=00000000000000000000|Sum=0|Purpose=Parse failed"

  const FallbackText := "Не удалось собрать рабочий QR. Проверьте реквизиты или пришлите образец для настройки."

  const BadQrPrefix := "⚠️ Некорректный GOST QR: "

  const NoStPrefix := "⚠️ GPT не вернул ST00012. "

  const QrFailPrefix := "⚠️ Не удалось сгенерировать QR: "

  /** The photo `on_approved_send_qr` sends. */
  datatype Photo =
    | ModelQr(payload: string, fields: map<string, Value>)   // the model's payment string, captioned from its fields
    | FallbackQr(caption: string)                              // the fallback payment string

  /** The caption of the fallback photo: the error caption, if any, above the fixed text. */
  function FallbackCaption(caption: string): string {
    if caption != [] then caption + "\n\n" + FallbackText else FallbackText
  }

  /**
   * `on_approved_send_qr` after the model answered with `st`, `fields` and
   * `notes`; `qrError` is the text of the exception raised while rendering
   * or sending the QR code, None when that succeeds.
   */
  method OnApprovedSendQr(st0: string, fields: map<string, Value>, notes: string, qrError: Option<string>)
      returns (photo: Photo)
    ensures photo == Outcome(st0, fields, notes, qrError)
  {
    var st := Some(st0);
    var caption := "";
    if st0 != [] {
      var err := ValidateSt00012(st0);
      if err.Some? {
        caption := BadQrPrefix + err.value;
        st := None;
      }
    } else {
      caption := Trim(NoStPrefix + notes);
    }
    if st.Some? && st.value != [] && |fields| > 0 {
      if qrError.None? {
        return ModelQr(st.value, fields);
      }
      caption := QrFailPrefix + qrError.value;
    }
    return FallbackQr(FallbackCaption(caption));
  }

  /** The caption after the model's answer was checked: empty when the payment string passed. */
  function CheckCaption(st: string, notes: string): string {
    if st == [] then Trim(NoStPrefix + notes)
    else match Validate(st)
      case Some(err) => BadQrPrefix + err
      case None => []
  }

  /** The photo `on_approved_send_qr` sends. */
  function Outcome(st: string, fields: map<string, Value>, notes: string, qrError: Option<string>): Photo {
    if st != [] && Validate(st) == None && |fields| > 0 then
      match qrError
      case None => ModelQr(st, fields)
      case Some(e) => FallbackQr(FallbackCaption(QrFailPrefix + e))
    else FallbackQr(FallbackCaption(CheckCaption(st, notes)))
  }

  /**
   * The model's payment string is sent exactly when it is not empty, passes
   * `_validate_st00012`, comes with fields and the QR code renders; a
   * payment string sent always passes the check.
   */
  lemma ModelQrOnlyWhenValid(st: string, fields: map<string, Value>, notes: string, qrError: Option<string>)
    ensures Outcome(st, fields, notes, qrError).ModelQr? <==>
              st != [] && Validate(st) == None && |fields| > 0 && qrError == None
    ensures Outcome(st, fields, notes, qrError).ModelQr? ==>
              Outcome(st, fields, notes, qrError) == ModelQr(st, fields) && Validate(Outcome(st, fields, notes, qrError).payload) == None
  {
  }

  /** A string not starting with a space keeps its first character when stripped. */
  lemma TrimKeepsHead(s: string)
    requires s != [] && !IsSpace(s[0])
    ensures Trim(s) != [] && Trim(s)[0] == s[0]
  {
    var a, b := TrimBounds(s);
  }

  /**
   * The fallback caption: the check's error above the fixed text when the
   * payment string was rejected; the notes above it when the model gave no
   * payment string; the fixed text alone when a valid string came without
   * fields; the rendering error above it when the QR code failed.
   */
  lemma FallbackCaptionRule(st: string, fields: map<string, Value>, notes: string, qrError: Option<string>)
    ensures st == [] ==>
              var c := Trim(NoStPrefix + notes);
              c != [] && Outcome(st, fields, notes, qrError) == FallbackQr(c + "\n\n" + FallbackText)
    ensures st != [] && Validate(st).Some? ==>
              Outcome(st, fields, notes, qrError) == FallbackQr(BadQrPrefix + Validate(st).value + "\n\n" + FallbackText)
    ensures st != [] && Validate(st) == None && |fields| == 0 ==>
              Outcome(st, fields, notes, qrError) == FallbackQr(FallbackText)
    ensures st != [] && Validate(st) == None && |fields| > 0 && qrError.Some? ==>
              Outcome(st, fields, notes, qrError) == FallbackQr(QrFailPrefix + qrError.value + "\n\n" + FallbackText)
  {
    if st == [] {
      TrimKeepsHead(NoStPrefix + notes);
    }
  }
}
