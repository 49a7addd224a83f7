/**
 * The check the approval flow applies to a payment string before it turns
 * it into a QR code (processor.py `_validate_st00012`): the ST00012 header,
 * the seven required fields present and not blank, and Sum an integer
 * number of kopecks.
 */
module PaymentCheck {
  import opened Wrappers
  import opened Text

  /** The payment string must start with the header and its first delimiter. */
  const Prefix := "ST00012|"

  /** `ST00012_REQUIRED`, in order. */
  const Required: seq<string> := ["Name", "PersonalAcc", "BankName", "BIC", "CorrespAcc", "Sum", "Purpose"]

  const NotSt00012 := "payload is not ST00012"

  const MissingPrefix := "missing fields: "

  const SumNotInteger := "Sum must be integer (kopecks)"

  /** One turn of the segment loop: a segment with `=` records its value under the text before the first `=`. */
  function Record(m: map<string, string>, p: string): map<string, string> {
    if '=' in p then m[SplitOnce(p, '=').0 := SplitOnce(p, '=').1] else m
  }

  /** The `fields` dictionary after the segment loop has seen `segs`. */
  function Pairs(segs: seq<string>): map<string, string> {
    if segs == [] then map[] else Record(Pairs(segs[..|segs| - 1]), segs[|segs| - 1])
  }

  /** `k not in fields or not fields[k].strip()` */
  predicate Absent(m: map<string, string>, k: string) {
    k !in m || IsBlank(m[k])
  }

  /** `[k for k in names if k not in fields or not fields[k].strip()]` */
  function Missing(m: map<string, string>, names: seq<string>): seq<string> {
    if names == [] then [] else (if Absent(m, names[0]) then [names[0]] else []) + Missing(m, names[1..])
  }

  /** `re.fullmatch(r"\d+", s)`, for ASCII digits. */
  predicate IsInteger(s: string) {
    s != [] && AllDigits(s)
  }

  /** The segments after the header: `st.split("|")[1:]`. */
  function Segments(st: string): seq<string> {
    Split(st, '|')[1..]
  }

  /** `_validate_st00012(st)`: None when the payment string passes, the error message otherwise. */
  function Validate(st: string): Option<string> {
    if !StartsWith(st, Prefix) then Some(NotSt00012)
    else
      var m := Pairs(Segments(st));
      var missing := Missing(m, Required);
      if missing != [] then Some(MissingPrefix + Join(missing, ", "))
      else if "Sum" in m && IsInteger(m["Sum"]) then None
      else Some(SumNotInteger)
  }

  /** `_validate_st00012(st)` */
  method ValidateSt00012(st: string) returns (err: Option<string>)
    ensures err == Validate(st)
  {
    if !StartsWith(st, Prefix) {
      return Some(NotSt00012);
    }
    var segs := Split(st, '|');
    var fields: map<string, string> := map[];
    for i := 1 to |segs|
      invariant fields == Pairs(segs[1..i])
    {
      var p := segs[i];
      if '=' in p {
        var kv := SplitOnce(p, '=');
        fields := fields[kv.0 := kv.1];
      }
      assert segs[1..i + 1][..i - 1] == segs[1..i];
    }
    assert segs[1..|segs|] == Segments(st);
    var missing := Missing(fields, Required);
    if missing != [] {
      return Some(MissingPrefix + Join(missing, ", "));
    }
    if !("Sum" in fields && IsInteger(fields["Sum"])) {
      return Some(SumNotInteger);
    }
    return None;
  }

  /** A name is reported missing exactly when it is one of `names` and is absent or blank. */
  lemma {:induction false} MissingMember(m: map<string, string>, names: seq<string>, k: string)
    ensures k in Missing(m, names) <==> k in names && Absent(m, k)
  {
    if names != [] {
      MissingMember(m, names[1..], k);
      assert names == [names[0]] + names[1..];
    }
  }

  /** The missing names keep the order of `names`: each comes from a later place than the one before. */
  lemma {:induction false} MissingInOrder(m: map<string, string>, names: seq<string>, i: nat, j: nat)
    requires i < j < |names| && Absent(m, names[i]) && Absent(m, names[j])
    ensures exists p, q :: 0 <= p < q < |Missing(m, names)| && Missing(m, names)[p] == names[i] && Missing(m, names)[q] == names[j]
  {
    var rest := Missing(m, names[1..]);
    if i == 0 {
      MissingMember(m, names[1..], names[j]);
      assert names[1..][j - 1] == names[j];
      var q :| 0 <= q < |rest| && rest[q] == names[j];
      assert Missing(m, names)[0] == names[0] && Missing(m, names)[q + 1] == names[j];
    } else {
      MissingInOrder(m, names[1..], i - 1, j - 1);
      var p, q :| 0 <= p < q < |rest| && rest[p] == names[i] && rest[q] == names[j];
      var h := |Missing(m, names)| - |rest|;
      assert Missing(m, names)[p + h] == names[i] && Missing(m, names)[q + h] == names[j];
    }
  }

  /** The header error is given exactly when the string does not start with `ST00012|`. */
  lemma HeaderRule(st: string)
    ensures Validate(st) == Some(NotSt00012) <==> !StartsWith(st, Prefix)
  {
    if StartsWith(st, Prefix) && Validate(st).Some? {
      var e := Validate(st).value;
      assert e[0] != NotSt00012[0];
    }
  }

  /** Nothing is missing exactly when every name is present and not blank. */
  lemma {:induction false} NoneMissing(m: map<string, string>, names: seq<string>)
    ensures Missing(m, names) == [] <==> forall k :: k in names ==> !Absent(m, k)
  {
    if !(forall k :: k in names ==> !Absent(m, k)) {
      var k :| k in names && Absent(m, k);
      MissingMember(m, names, k);
    }
    if names != [] {
      NoneMissing(m, names[1..]);
      assert forall k :: k in names <==> k == names[0] || k in names[1..];
    }
  }

  /**
   * A payment string with the header is rejected for missing fields exactly
   * when a required field is absent or blank, and the message lists those
   * fields in `ST00012_REQUIRED` order.
   */
  lemma MissingRule(st: string)
    requires StartsWith(st, Prefix)
    ensures var m := Pairs(Segments(st));
            && (Missing(m, Required) != [] <==> exists k :: k in Required && Absent(m, k))
            && (Missing(m, Required) != [] ==> Validate(st) == Some(MissingPrefix + Join(Missing(m, Required), ", ")))
  {
    NoneMissing(Pairs(Segments(st)), Required);
  }

  /**
   * With no field missing, the payment string passes exactly when Sum is a
   * string of digits: Sum "0" passes, and nothing checks the length of BIC
   * or of the account numbers.
   */
  lemma SumRule(st: string)
    requires StartsWith(st, Prefix) && Missing(Pairs(Segments(st)), Required) == []
    ensures "Sum" in Pairs(Segments(st))
    ensures Validate(st) == None <==> IsInteger(Pairs(Segments(st))["Sum"])
    ensures Validate(st) != None ==> Validate(st) == Some(SumNotInteger)
  {
    MissingMember(Pairs(Segments(st)), Required, "Sum");
    assert Required[5] == "Sum";
  }

  /** A payment string with the header, every required field present and not blank and a Sum of digits passes. */
  lemma Passing(st: string)
    requires StartsWith(st, Prefix)
    requires forall n :: n in Required ==> !Absent(Pairs(Segments(st)), n)
    requires "Sum" in Pairs(Segments(st)) && IsInteger(Pairs(Segments(st))["Sum"])
    ensures Validate(st) == None
  {
    NoneMissing(Pairs(Segments(st)), Required);
  }

  /** With the header and every required field but Sum in place, a string without Sum is reported as missing exactly Sum. */
  lemma OnlySumMissing(st: string)
    requires StartsWith(st, Prefix)
    requires forall n :: n in Required && n != "Sum" ==> !Absent(Pairs(Segments(st)), n)
    requires "Sum" !in Pairs(Segments(st))
    ensures Validate(st) == Some(MissingPrefix + "Sum")
  {
    var m := Pairs(Segments(st));
    var a, b := Required[..5], Required[6..];
    assert Required == a + (["Sum"] + b);
    MissingAppend(m, a, ["Sum"] + b);
    MissingAppend(m, ["Sum"], b);
    NoneMissing(m, a);
    NoneMissing(m, b);
    assert Missing(m, ["Sum"]) == ["Sum"];
  }

  lemma {:induction false} MissingAppend(m: map<string, string>, a: seq<string>, b: seq<string>)
    ensures Missing(m, a + b) == Missing(m, a) + Missing(m, b)
  {
    if a == [] {
      assert a + b == b;
    } else {
      MissingAppend(m, a[1..], b);
      assert (a + b)[0] == a[0] && (a + b)[1..] == a[1..] + b;
    }
  }

  /** Segment `p` records a value under key `k`. */
  predicate HasKey(p: string, k: string) {
    '=' in p && SplitOnce(p, '=').0 == k
  }

  /** A key is recorded exactly when some segment has it. */
  lemma {:induction false} RecordedKeys(segs: seq<string>, k: string)
    ensures k in Pairs(segs) <==> exists i :: 0 <= i < |segs| && HasKey(segs[i], k)
  {
    if segs != [] {
      var n := |segs| - 1;
      RecordedKeys(segs[..n], k);
      if exists i :: 0 <= i < |segs| && HasKey(segs[i], k) {
        var i :| 0 <= i < |segs| && HasKey(segs[i], k);
        if i < n {
          assert segs[..n][i] == segs[i];
        }
      }
      if exists i :: 0 <= i < n && HasKey(segs[..n][i], k) {
        var i :| 0 <= i < n && HasKey(segs[..n][i], k);
        assert segs[i] == segs[..n][i];
      }
    }
  }

  /**
   * The value recorded under `k` is that of the last segment with key `k`:
   * a later duplicate overwrites an earlier one.
   */
  lemma {:induction false} LastWins(segs: seq<string>, k: string, i: nat)
    requires i < |segs| && HasKey(segs[i], k)
    requires forall j :: i < j < |segs| ==> !HasKey(segs[j], k)
    ensures k in Pairs(segs) && Pairs(segs)[k] == SplitOnce(segs[i], '=').1
  {
    var n := |segs| - 1;
    if i < n {
      assert segs[..n][i] == segs[i];
      forall j | i < j < n
        ensures !HasKey(segs[..n][j], k)
      {
        assert segs[..n][j] == segs[j];
      }
      LastWins(segs[..n], k, i);
    }
  }
}
