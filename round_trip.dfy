/**
 * The payment string the bot builds from normalised fields
 * (main_web_v2.py) passes the check the approval flow applies to it
 * (processor.py): build, then validate, gives no error.
 */
module RoundTrip {
  import opened Wrappers
  import opened Text
  import opened Fields
  import opened PaymentBuild
  import opened PaymentCheck

  /** The keys `ST00012_REQUIRED` names. */
  const RequiredKeys: seq<Key> := [Name, PersonalAcc, BankName, BIC, CorrespAcc, Sum, Purpose]

  lemma RequiredNamesAreKeys(n: string)
    requires n in Required
    ensures exists k :: k in RequiredKeys && KeyName(k) == n
  {
    if n == "Name" { assert KeyName(Name) == n && Name in RequiredKeys; }
    else if n == "PersonalAcc" { assert KeyName(PersonalAcc) == n && PersonalAcc in RequiredKeys; }
    else if n == "BankName" { assert KeyName(BankName) == n && BankName in RequiredKeys; }
    else if n == "BIC" { assert KeyName(BIC) == n && BIC in RequiredKeys; }
    else if n == "CorrespAcc" { assert KeyName(CorrespAcc) == n && CorrespAcc in RequiredKeys; }
    else if n == "Sum" { assert KeyName(Sum) == n && Sum in RequiredKeys; }
    else { assert KeyName(Purpose) == n && Purpose in RequiredKeys; }
  }

  /** The amount is written under the name `Sum`. */
  lemma SumName()
    ensures KeyName(Sum) == "Sum"
  {
  }

  /** When every segment with key `k` carries `t` and one does, the loop records `t` under `k`. */
  lemma {:induction false} UniformValue(segs: seq<string>, k: string, t: string, i: nat)
    requires i < |segs| && HasKey(segs[i], k)
    requires forall j :: 0 <= j < |segs| && HasKey(segs[j], k) ==> SplitOnce(segs[j], '=').1 == t
    ensures k in Pairs(segs) && Pairs(segs)[k] == t
  {
    var n := |segs| - 1;
    if HasKey(segs[n], k) {
    } else {
      assert i < n && segs[..n][i] == segs[i];
      forall j | 0 <= j < n && HasKey(segs[..n][j], k)
        ensures SplitOnce(segs[..n][j], '=').1 == t
      {
        assert segs[..n][j] == segs[j];
      }
      UniformValue(segs[..n], k, t, i);
    }
  }

  /** No segment has a key that no truthy field has. */
  lemma {:induction false} NoSegmentNoKey(segs: seq<string>, k: string)
    requires forall j :: 0 <= j < |segs| ==> !HasKey(segs[j], k)
    ensures k !in Pairs(segs)
  {
    RecordedKeys(segs, k);
  }

  /** Every segment of the built string with the name of `k` as its key carries the text of `k`'s value. */
  lemma SegmentsOfKey(d: map<string, Value>, k: Key, x: string)
    requires x in Collect(ReqKeys, EntryFn(d)) && HasKey(x, KeyName(k))
    ensures Truthy(Field(d, k)) && SplitOnce(x, '=').1 == PyStr(Field(d, k))
  {
    PartIsEntry(d, x);
    var k' :| Truthy(Field(d, k')) && x == Entry(k', Field(d, k'));
    EntrySplits(k', Field(d, k'));
    KeyNameInjective(k, k');
  }

  /** The dictionary the check reads back from the built string holds the text of every truthy field under its name. */
  lemma ReadBack(d: map<string, Value>, k: Key)
    requires Truthy(Field(d, k))
    ensures var m := Pairs(Collect(ReqKeys, EntryFn(d)));
            KeyName(k) in m && m[KeyName(k)] == PyStr(Field(d, k))
  {
    var e := Collect(ReqKeys, EntryFn(d));
    EntryInParts(d, k);
    var x := Entry(k, Field(d, k));
    var i :| 0 <= i < |e| && e[i] == x;
    EntrySplits(k, Field(d, k));
    forall j | 0 <= j < |e| && HasKey(e[j], KeyName(k))
      ensures SplitOnce(e[j], '=').1 == PyStr(Field(d, k))
    {
      SegmentsOfKey(d, k, e[j]);
    }
    UniformValue(e, KeyName(k), PyStr(Field(d, k)), i);
  }

  /** A field whose value is not truthy has no entry, so the check reads it as absent. */
  lemma ReadBackAbsent(d: map<string, Value>, k: Key)
    requires !Truthy(Field(d, k))
    ensures KeyName(k) !in Pairs(Collect(ReqKeys, EntryFn(d)))
  {
    var e := Collect(ReqKeys, EntryFn(d));
    forall j | 0 <= j < |e|
      ensures !HasKey(e[j], KeyName(k))
    {
      if HasKey(e[j], KeyName(k)) {
        SegmentsOfKey(d, k, e[j]);
      }
    }
    NoSegmentNoKey(e, KeyName(k));
  }

  /** The built string starts with `ST00012|` once it holds an entry, and splits back into its parts. */
  lemma BuiltSegments(d: map<string, Value>)
    requires forall k: Key :: BarFree(Field(d, k))
    requires Truthy(Field(d, Name))
    ensures StartsWith(Join(Parts(d), "|"), Prefix)
    ensures Segments(Join(Parts(d), "|")) == Collect(ReqKeys, EntryFn(d))
  {
    var p := Parts(d);
    EntryInParts(d, Name);
    assert |p| >= 2;
    var st := Join(p, "|");
    assert st == Header + "|" + Join(p[1..], "|");
    assert st[..|Prefix|] == Prefix;
    PartsAvoidBar(d);
    SplitJoin(p, '|');
  }

  /** A field the check requires passes it when its value is truthy text that is not blank. */
  predicate Passes(v: Value) {
    Truthy(v) && !IsBlank(PyStr(v))
  }

  /** The keys `ST00012_REQUIRED` names: all but PayeeINN and KPP. */
  predicate IsRequired(k: Key) {
    k != PayeeINN && k != KPP
  }

  /** Every name of `ST00012_REQUIRED` is read back present and not blank. */
  lemma RequiredReadBack(d: map<string, Value>)
    requires forall k: Key :: IsRequired(k) ==> Passes(Field(d, k))
    ensures forall n :: n in Required ==> !Absent(Pairs(Collect(ReqKeys, EntryFn(d))), n)
  {
    forall n | n in Required
      ensures !Absent(Pairs(Collect(ReqKeys, EntryFn(d))), n)
    {
      RequiredNamesAreKeys(n);
      var k :| k in RequiredKeys && KeyName(k) == n;
      ReadBack(d, k);
    }
  }

  /** Every name of `ST00012_REQUIRED` but Sum is read back present and not blank. */
  lemma OthersReadBack(d: map<string, Value>)
    requires forall k: Key :: IsRequired(k) && k != Sum ==> Passes(Field(d, k))
    ensures forall n :: n in Required && n != "Sum" ==> !Absent(Pairs(Collect(ReqKeys, EntryFn(d))), n)
  {
    forall n | n in Required && n != "Sum"
      ensures !Absent(Pairs(Collect(ReqKeys, EntryFn(d))), n)
    {
      RequiredNamesAreKeys(n);
      var k :| k in RequiredKeys && KeyName(k) == n;
      ReadBack(d, k);
    }
  }

  /** A positive amount in kopecks is truthy and written as a string of digits. */
  lemma PositiveSumPasses(kop: int)
    requires kop > 0
    ensures Passes(Num(kop)) && IsInteger(PyStr(Num(kop)))
  {
    TrimmedNonEmptyNotBlank(IntToString(kop));
  }

  /**
   * Build then validate: when no value contains `|`, every required field
   * is truthy and not blank, and Sum's text is a string of digits, the
   * built payment string passes the check.
   */
  lemma BuildThenValidate(d: map<string, Value>)
    requires forall k: Key :: BarFree(Field(d, k))
    requires forall k: Key :: IsRequired(k) ==> Passes(Field(d, k))
    requires IsInteger(PyStr(Field(d, Sum)))
    ensures Validate(Join(Parts(d), "|")) == None
  {
    var st, e := Join(Parts(d), "|"), Collect(ReqKeys, EntryFn(d));
    assert StartsWith(st, Prefix) && Segments(st) == e by {
      assert IsRequired(Name);
      BuiltSegments(d);
    }
    assert forall n :: n in Required ==> !Absent(Pairs(e), n) by {
      RequiredReadBack(d);
    }
    assert "Sum" in Pairs(e) && IsInteger(Pairs(e)["Sum"]) by {
      assert IsRequired(Sum);
      SumName();
      ReadBack(d, Sum);
    }
    Passing(st);
  }

  /**
   * Build without an amount: when Sum is not truthy (a zero amount), the
   * built string has no Sum entry and the check reports exactly
   * "missing fields: Sum".
   */
  lemma BuildWithoutSum(d: map<string, Value>)
    requires forall k: Key :: BarFree(Field(d, k))
    requires forall k: Key :: IsRequired(k) && k != Sum ==> Passes(Field(d, k))
    requires !Truthy(Field(d, Sum))
    ensures Validate(Join(Parts(d), "|")) == Some(MissingPrefix + "Sum")
  {
    var st, e := Join(Parts(d), "|"), Collect(ReqKeys, EntryFn(d));
    assert StartsWith(st, Prefix) && Segments(st) == e by {
      assert IsRequired(Name);
      BuiltSegments(d);
    }
    assert forall n :: n in Required && n != "Sum" ==> !Absent(Pairs(e), n) by {
      OthersReadBack(d);
    }
    assert "Sum" !in Pairs(e) by {
      SumName();
      ReadBackAbsent(d, Sum);
    }
    OnlySumMissing(st);
  }

  /** The fields of `normalize_fields(f)` the check requires, other than Sum and Purpose, are not empty. */
  predicate AccountsFilled(f: map<string, Value>) {
    && NormalizedValue(f, Name) != Str([])
    && NormalizedValue(f, PersonalAcc) != Str([])
    && NormalizedValue(f, BankName) != Str([])
    && NormalizedValue(f, BIC) != Str([])
    && NormalizedValue(f, CorrespAcc) != Str([])
  }

  /** What the builder reads from the normalised dictionary for key `k`. */
  lemma NormalizedForBuild(f: map<string, Value>, k: Key)
    ensures var n := Normalized(f);
            && BarFree(Field(AsDict(n), k))
            && (k == Sum ==> Field(AsDict(n), k) == Num(ToKop(Field(f, Sum))))
            && (k != Sum ==> Field(AsDict(n), k) == n[k] && n[k].Str? && IsTrimmed(n[k].s))
  {
    var n := Normalized(f);
    NormalizedAt(f, k);
    assert Field(AsDict(n), k) == n[k];
    if k == Sum {
      IntToStringHasNoChar(n[Sum].n, '|');
    } else {
      NormalizedTextIsClean(f, k);
    }
  }

  /** No value of the normalised dictionary contains `|`. */
  lemma NormalizedBarFree(f: map<string, Value>)
    ensures forall k: Key :: BarFree(Field(AsDict(Normalized(f)), k))
  {
    forall k: Key
      ensures BarFree(Field(AsDict(Normalized(f)), k))
    {
      NormalizedForBuild(f, k);
    }
  }

  /** Every required text field of the normalised dictionary passes the check once the account fields are filled. */
  lemma NormalizedTextPasses(f: map<string, Value>)
    requires AccountsFilled(f)
    ensures forall k: Key :: IsRequired(k) && k != Sum ==> Passes(Field(AsDict(Normalized(f)), k))
  {
    var n := Normalized(f);
    forall k: Key | IsRequired(k) && k != Sum
      ensures Passes(Field(AsDict(n), k))
    {
      NormalizedForBuild(f, k);
      NormalizedAt(f, k);
      if k == Purpose {
        NormalizedPurposeMentionsVat(f);
      }
      TrimmedNonEmptyNotBlank(n[k].s);
    }
  }

  /**
   * The headline round trip: whenever `normalize_fields(f)` has non-empty
   * Name, PersonalAcc, BankName, BIC and CorrespAcc and a positive Sum,
   * `_validate_st00012(build_st00012(normalize_fields(f)))` is None.
   */
  lemma NormalizedPasses(f: map<string, Value>)
    requires AccountsFilled(f) && ToKop(Field(f, Sum)) > 0
    ensures Validate(Join(Parts(AsDict(Normalized(f))), "|")) == None
  {
    var d := AsDict(Normalized(f));
    NormalizedBarFree(f);
    NormalizedTextPasses(f);
    NormalizedForBuild(f, Sum);
    PositiveSumPasses(ToKop(Field(f, Sum)));
    assert forall k: Key :: IsRequired(k) ==> Passes(Field(d, k));
    BuildThenValidate(d);
  }

  /**
   * A zero amount: `to_kop` gives 0, `build_st00012` leaves Sum out, and the
   * check then reports exactly "missing fields: Sum".
   */
  lemma ZeroSumRejected(f: map<string, Value>)
    requires AccountsFilled(f) && ToKop(Field(f, Sum)) == 0
    ensures Validate(Join(Parts(AsDict(Normalized(f))), "|")) == Some(MissingPrefix + "Sum")
  {
    NormalizedBarFree(f);
    NormalizedTextPasses(f);
    NormalizedForBuild(f, Sum);
    BuildWithoutSum(AsDict(Normalized(f)));
  }
}
