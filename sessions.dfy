/**
 * The webhook bot's two session tables (main_web_v2.py): PENDING holds the
 * documents waiting for the user's confirmation, RESULTS the payments made
 * from confirmed ones. `handle_callback` reads the button's callback data,
 * `<command>:<token>`, and pops from or reads these tables;
 * `process_document` refuses a document whose key fields are empty and
 * otherwise builds the payment string and records it under the token.
 */
module Sessions {
  import opened Wrappers
  import opened Text
  import opened Fields
  import opened PaymentBuild
  import opened PaymentCheck
  import opened RoundTrip

  // ------------------------------------------------- the missing-field gate

  /** The keys `process_document` insists on, in the order it reports them. */
  const GateKeys: seq<Key> := [PersonalAcc, BIC, PayeeINN, Sum]

  /** `not fields.get(k)` */
  predicate Lacks(n: map<Key, Value>, k: Key) {
    k !in n || !Truthy(n[k])
  }

  /** `[k for k in keys if not fields.get(k)]` */
  function MissingOf(n: map<Key, Value>, keys: seq<Key>): seq<Key> {
    if keys == [] then []
    else MissingOf(n, keys[..|keys| - 1]) + (if Lacks(n, keys[|keys| - 1]) then [keys[|keys| - 1]] else [])
  }

  /** The loop of `process_document` that collects the missing key fields. */
  method MissingForQr(n: map<Key, Value>) returns (missing: seq<Key>)
    ensures missing == MissingOf(n, GateKeys)
  {
    missing := [];
    for i := 0 to |GateKeys|
      invariant missing == MissingOf(n, GateKeys[..i])
    {
      var k := GateKeys[i];
      if Lacks(n, k) {
        missing := missing + [k];
      }
      assert GateKeys[..i + 1][..i] == GateKeys[..i];
    }
    assert GateKeys[..|GateKeys|] == GateKeys;
  }

  /** A key is reported exactly when it is one of `keys` and is empty or zero. */
  lemma {:induction false} MissingOfMember(n: map<Key, Value>, keys: seq<Key>, k: Key)
    ensures k in MissingOf(n, keys) <==> k in keys && Lacks(n, k)
  {
    if keys != [] {
      var m := |keys| - 1;
      MissingOfMember(n, keys[..m], k);
      assert keys == keys[..m] + [keys[m]];
    }
  }

  /** The reported keys keep the order of `keys`. */
  lemma {:induction false} MissingOfInOrder(n: map<Key, Value>, keys: seq<Key>, i: nat, j: nat)
    requires i < j < |keys| && Lacks(n, keys[i]) && Lacks(n, keys[j])
    ensures exists p, q :: 0 <= p < q < |MissingOf(n, keys)| && MissingOf(n, keys)[p] == keys[i] && MissingOf(n, keys)[q] == keys[j]
  {
    var m := |keys| - 1;
    var front := MissingOf(n, keys[..m]);
    if j == m {
      MissingOfMember(n, keys[..m], keys[i]);
      assert keys[..m][i] == keys[i];
      var p :| 0 <= p < |front| && front[p] == keys[i];
      assert MissingOf(n, keys)[p] == keys[i] && MissingOf(n, keys)[|front|] == keys[j];
    } else {
      assert keys[..m][i] == keys[i] && keys[..m][j] == keys[j];
      MissingOfInOrder(n, keys[..m], i, j);
      var p, q :| 0 <= p < q < |front| && front[p] == keys[i] && front[q] == keys[j];
      assert MissingOf(n, keys)[p] == keys[i] && MissingOf(n, keys)[q] == keys[j];
    }
  }

  /**
   * On a normalised dictionary the gate reports a text key exactly when its
   * cleaned value is empty, and Sum exactly when it came out as 0 kopecks.
   */
  lemma GateOnNormalized(f: map<string, Value>, k: Key)
    requires k in GateKeys
    ensures k in MissingOf(Normalized(f), GateKeys) <==>
              if k == Sum then ToKop(Field(f, Sum)) == 0 else NormalizedValue(f, k) == Str([])
  {
    MissingOfMember(Normalized(f), GateKeys, k);
    NormalizedAt(f, k);
    if k != Sum {
      NormalizedTextIsClean(f, k);
    }
  }

  /**
   * A payment string `process_document` records passes `_validate_st00012`
   * whenever Name, BankName and CorrespAcc are filled too: the gate itself
   * does not look at those three.
   */
  lemma RecordedPaymentPasses(f: map<string, Value>)
    requires MissingOf(Normalized(f), GateKeys) == []
    requires NormalizedValue(f, Name) != Str([]) && NormalizedValue(f, BankName) != Str([])
    requires NormalizedValue(f, CorrespAcc) != Str([])
    ensures Validate(Join(Parts(AsDict(Normalized(f))), "|")) == None
  {
    GateOnNormalized(f, PersonalAcc);
    GateOnNormalized(f, BIC);
    GateOnNormalized(f, Sum);
    NormalizedPasses(f);
  }

  // ------------------------------------------------------- session tables

  /** A PENDING entry: the document waiting for confirmation. */
  datatype PendingDoc = PendingDoc(chatId: int, fileId: string, fileName: string, token: string)

  /** A RESULTS entry: the normalised fields, the payment string and the document's name. */
  datatype Stored = Stored(fields: map<Key, Value>, st: string, fileName: string)

  /**
   * What `get_file_bytes` and `gpt_extract_fields` gave for a confirmed
   * document: the download failed (the bot says so), the model call raised
   * (the exception leaves `handle_callback`), or the model's fields.
   */
  datatype Download = DownloadError(error: string) | ExtractRaised | Extracted(raw: map<string, Value>)

  /** The message the bot answers with. */
  datatype Reply =
    | SessionNotFound
    | DownloadFailed(error: string)
    | EmptyReply
    | MissingData(keys: seq<Key>)
    | QrSent(st: string)
    | Cancelled
    | PaymentInfo(fields: map<Key, Value>)
    | NoPaymentData
    | Resent(st: string)
    | NoResendData
    | ResultCleared
    | UnknownCommand
    | NoMessage

  /**
   * The RESULTS table and the reply after `process_document(doc)`;
   * `qrFails` says whether `make_qr` raises on the payment string (a payload
   * beyond the QR capacity), in which case nothing is recorded or sent.
   */
  function Process(results: map<string, Stored>, doc: PendingDoc, got: Download, qrFails: bool): (map<string, Stored>, Reply) {
    match got
    case DownloadError(e) => (results, DownloadFailed(e))
    case ExtractRaised => (results, NoMessage)
    case Extracted(raw) =>
      if |raw| == 0 then (results, EmptyReply)
      else
        var n := Normalized(raw);
        var missing := MissingOf(n, GateKeys);
        if missing != [] then (results, MissingData(missing))
        else
          var st := Join(Parts(AsDict(n)), "|");
          if qrFails then (results, NoMessage)
          else (results[doc.token := Stored(n, st, doc.fileName)], QrSent(st))
  }

  const OkCmd := "ok"
  const NoCmd := "no"
  const PayCmd := "pay"
  const GetCmd := "get"
  const CancelCmd := "cancel"

  /** `data.startswith(cmd + ":")` */
  predicate IsCommand(data: string, cmd: string) {
    StartsWith(data, cmd + ":")
  }

  /** `data.split(":", 1)[1]` for data that starts with `cmd:`: everything after the command. */
  function TokenOf(data: string, cmd: string): (t: string)
    requires ':' !in cmd && IsCommand(data, cmd)
    ensures t == data[|cmd| + 1..]
  {
    var rest := data[|cmd| + 1..];
    assert data == cmd + [':'] + rest by {
      assert data[..|cmd| + 1] == cmd + ":";
    }
    FindAfterPrefix(cmd, ':', rest);
    SplitOnce(data, ':').1
  }

  /** The command words hold no `:`. */
  lemma CommandsPlain()
    ensures ':' !in OkCmd && ':' !in NoCmd && ':' !in PayCmd && ':' !in GetCmd && ':' !in CancelCmd
  {
  }

  /** The two tables and the reply after `handle_callback`. */
  datatype Outcome = Outcome(pending: map<string, PendingDoc>, results: map<string, Stored>, reply: Reply)

  /** `handle_callback` on the tables `pending` and `results`. */
  function Step(pending: map<string, PendingDoc>, results: map<string, Stored>, data: string, got: Download, qrFails: bool): Outcome {
    CommandsPlain();
    if IsCommand(data, OkCmd) then
      var t := TokenOf(data, OkCmd);
      if t !in pending then Outcome(pending, results, SessionNotFound)
      else
        var r := Process(results, pending[t], got, qrFails);
        Outcome(pending - {t}, r.0, r.1)
    else if IsCommand(data, NoCmd) then
      Outcome(pending - {TokenOf(data, NoCmd)}, results, Cancelled)
    else if IsCommand(data, PayCmd) then
      var t := TokenOf(data, PayCmd);
      Outcome(pending, results, if t in results then PaymentInfo(results[t].fields) else NoPaymentData)
    else if IsCommand(data, GetCmd) then
      var t := TokenOf(data, GetCmd);
      Outcome(pending, results, if t in results then Resent(results[t].st) else NoResendData)
    else if IsCommand(data, CancelCmd) then
      Outcome(pending, results - {TokenOf(data, CancelCmd)}, ResultCleared)
    else Outcome(pending, results, UnknownCommand)
  }

  /** PENDING and RESULTS, the module-level dictionaries. */
  class SessionTables {
    var pending: map<string, PendingDoc>
    var results: map<string, Stored>

    /** Every pending document is filed under its own token. */
    predicate Valid()
      reads this
    {
      forall t :: t in pending ==> pending[t].token == t
    }

    constructor ()
      ensures Valid() && pending == map[] && results == map[]
    {
      pending := map[];
      results := map[];
    }

    /** `PENDING[token] = {...}` when a document arrives; the token is drawn at random by the caller. */
    method Confirm(chatId: int, fileId: string, fileName: string, token: string)
      requires Valid()
      modifies this
      ensures Valid()
      ensures pending == old(pending)[token := PendingDoc(chatId, fileId, fileName, token)]
      ensures results == old(results)
    {
      pending := pending[token := PendingDoc(chatId, fileId, fileName, token)];
    }

    /** `process_document(doc)` */
    method ProcessDocument(doc: PendingDoc, got: Download, qrFails: bool) returns (reply: Reply)
      modifies this
      ensures (results, reply) == Process(old(results), doc, got, qrFails)
      ensures pending == old(pending)
    {
      if got.DownloadError? {
        return DownloadFailed(got.error);
      }
      if got.ExtractRaised? {
        return NoMessage;
      }
      if |got.raw| == 0 {
        return EmptyReply;
      }
      var fields := NormalizeFields(got.raw);
      var missing := MissingForQr(fields);
      if missing != [] {
        return MissingData(missing);
      }
      var st := BuildSt00012(AsDict(fields));
      if qrFails {
        return NoMessage;
      }
      results := results[doc.token := Stored(fields, st, doc.fileName)];
      return QrSent(st);
    }

    /**
     * `handle_callback(cq)`, with `got` what downloading and reading a
     * confirmed document gives and `qrFails` whether its QR cannot be made.
     */
    method HandleCallback(data: string, got: Download, qrFails: bool) returns (reply: Reply)
      requires Valid()
      modifies this
      ensures Valid()
      ensures Outcome(pending, results, reply) == Step(old(pending), old(results), data, got, qrFails)
    {
      CommandsPlain();
      if IsCommand(data, OkCmd) {
        var t := TokenOf(data, OkCmd);
        if t !in pending {
          return SessionNotFound;
        }
        var doc := pending[t];
        pending := pending - {t};
        reply := ProcessDocument(doc, got, qrFails);
        return;
      }
      if IsCommand(data, NoCmd) {
        pending := pending - {TokenOf(data, NoCmd)};
        return Cancelled;
      }
      if IsCommand(data, PayCmd) {
        var t := TokenOf(data, PayCmd);
        if t !in results {
          return NoPaymentData;
        }
        return PaymentInfo(results[t].fields);
      }
      if IsCommand(data, GetCmd) {
        var t := TokenOf(data, GetCmd);
        if t !in results {
          return NoResendData;
        }
        return Resent(results[t].st);
      }
      if IsCommand(data, CancelCmd) {
        results := results - {TokenOf(data, CancelCmd)};
        return ResultCleared;
      }
      return UnknownCommand;
    }
  }

  /**
   * `ok:` pops the token before processing: the same confirmation a second
   * time finds no session and changes nothing.
   */
  lemma ConfirmedOnce(pending: map<string, PendingDoc>, results: map<string, Stored>, data: string, got: Download, again: Download, qrFails: bool, qrFailsAgain: bool)
    requires IsCommand(data, OkCmd)
    ensures var o := Step(pending, results, data, got, qrFails);
            Step(o.pending, o.results, data, again, qrFailsAgain) == Outcome(o.pending, o.results, SessionNotFound)
  {
    CommandsPlain();
  }

  /** `ok:` and `no:` remove the token from PENDING; `no:` leaves RESULTS alone. */
  lemma PendingPopped(pending: map<string, PendingDoc>, results: map<string, Stored>, data: string, got: Download, qrFails: bool)
    requires IsCommand(data, OkCmd) || IsCommand(data, NoCmd)
    ensures Step(pending, results, data, got, qrFails).pending == pending - {data[3..]}
    ensures IsCommand(data, NoCmd) ==> Step(pending, results, data, got, qrFails).results == results
  {
    CommandsPlain();
    if IsCommand(data, NoCmd) {
      assert data[0] == 'n';
    }
  }

  /** `cancel:` removes the token from RESULTS and leaves PENDING alone. */
  lemma ResultPopped(pending: map<string, PendingDoc>, results: map<string, Stored>, data: string, got: Download, qrFails: bool)
    requires IsCommand(data, CancelCmd)
    ensures Step(pending, results, data, got, qrFails) == Outcome(pending, results - {data[7..]}, ResultCleared)
  {
    CommandsPlain();
    assert data[0] == 'c';
  }

  /** `pay:` and `get:` only read RESULTS: they answer from the entry under the token, or say there is none. */
  lemma ReadOnlyCommands(pending: map<string, PendingDoc>, results: map<string, Stored>, data: string, got: Download, qrFails: bool)
    requires IsCommand(data, PayCmd) || IsCommand(data, GetCmd)
    ensures var o := Step(pending, results, data, got, qrFails);
            && o.pending == pending && o.results == results
            && (IsCommand(data, PayCmd) ==> o.reply == if data[4..] in results then PaymentInfo(results[data[4..]].fields) else NoPaymentData)
            && (IsCommand(data, GetCmd) ==> o.reply == if data[4..] in results then Resent(results[data[4..]].st) else NoResendData)
  {
    CommandsPlain();
    if IsCommand(data, PayCmd) {
      assert data[0] == 'p';
    } else {
      assert data[0] == 'g';
    }
  }

  /** Only `ok:` can add to RESULTS; every other command keeps its tokens or removes one. */
  lemma OnlyConfirmationRecords(pending: map<string, PendingDoc>, results: map<string, Stored>, data: string, got: Download, qrFails: bool)
    requires !IsCommand(data, OkCmd)
    ensures Step(pending, results, data, got, qrFails).results.Keys <= results.Keys
  {
  }

  /**
   * Confirming a pending document records a payment only when its fields
   * pass the gate and the QR can be made, and then under the confirmed
   * token, with the payment string built from the normalised fields;
   * otherwise RESULTS is as it was. When the model call or `make_qr` raises,
   * the token is still popped and no message is sent.
   */
  lemma ConfirmationRecords(pending: map<string, PendingDoc>, results: map<string, Stored>, data: string, got: Download, qrFails: bool)
    requires forall t :: t in pending ==> pending[t].token == t
    requires IsCommand(data, OkCmd)
    ensures var t, o := data[3..], Step(pending, results, data, got, qrFails);
            if t in pending && got.Extracted? && |got.raw| > 0 && MissingOf(Normalized(got.raw), GateKeys) == [] && !qrFails then
              var n := Normalized(got.raw);
              o.results == results[t := Stored(n, Join(Parts(AsDict(n)), "|"), pending[t].fileName)] && o.reply == QrSent(Join(Parts(AsDict(n)), "|"))
            else o.results == results
    ensures var t, o := data[3..], Step(pending, results, data, got, qrFails);
            t in pending && (got.ExtractRaised? || (got.Extracted? && |got.raw| > 0 && MissingOf(Normalized(got.raw), GateKeys) == [] && qrFails)) ==>
              o == Outcome(pending - {t}, results, NoMessage)
  {
    CommandsPlain();
    var t := data[3..];
    assert TokenOf(data, OkCmd) == t;
    if t in pending {
      assert pending[t].token == t;
      var r := Process(results, pending[t], got, qrFails);
      assert Step(pending, results, data, got, qrFails) == Outcome(pending - {t}, r.0, r.1);
    }
  }
}
