/**
 * Field normalisation of the model's reply (main_web_v2.py): the nine
 * payment keys, the amount in whole kopecks, and text fields that are
 * stripped, free of the `|`, CR and LF characters that would break the
 * payment string, with a Purpose that always mentions VAT ("НДС").
 */
module Fields {
  import opened Wrappers
  import opened Text

  /** A JSON scalar as `json.loads` gives it: None, an integer or a string. */
  datatype Value = Null | Num(n: int) | Str(s: string)

  /** Python truthiness of a value. */
  predicate Truthy(v: Value) {
    match v
    case Null => false
    case Num(n) => n != 0
    case Str(s) => s != []
  }

  /** `str(v)` */
  function PyStr(v: Value): string {
    match v
    case Null => "None"
    case Num(n) => IntToString(n)
    case Str(s) => s
  }

  /** `d.get(k)` */
  function Get(d: map<string, Value>, k: string): Value {
    if k in d then d[k] else Null
  }

  /** `v or ""` */
  function OrEmpty(v: Value): (r: Value)
    ensures Truthy(v) ==> r == v
    ensures !Truthy(v) ==> r == Str([])
  {
    if Truthy(v) then v else Str([])
  }

  /** The nine keys of `REQ_KEYS`, the keys of the normalised dictionary. */
  datatype Key = Name | PersonalAcc | BankName | BIC | CorrespAcc | PayeeINN | KPP | Sum | Purpose

  /** The key's name in the model's JSON and in the payment string. */
  function KeyName(k: Key): string {
    match k
    case Name => "Name"
    case PersonalAcc => "PersonalAcc"
    case BankName => "BankName"
    case BIC => "BIC"
    case CorrespAcc => "CorrespAcc"
    case PayeeINN => "PayeeINN"
    case KPP => "KPP"
    case Sum => "Sum"
    case Purpose => "Purpose"
  }

  /** `REQ_KEYS`, in order. */
  const ReqKeys: seq<Key> := [Name, PersonalAcc, BankName, BIC, CorrespAcc, PayeeINN, KPP, Sum, Purpose]

  /** The keys whose values are cleaned as text: every key but Sum. */
  const TextKeys: seq<Key> := [Name, PersonalAcc, BankName, BIC, CorrespAcc, PayeeINN, KPP, Purpose]

  /** `REQ_KEYS` lists every key once, Sum in eighth place, and the cleaning loop covers every key but Sum. */
  lemma TextKeysComplete(k: Key)
    ensures k in ReqKeys
    ensures k != Sum ==> exists j :: 0 <= j < |TextKeys| && TextKeys[j] == k
  {
    match k
    case Name => assert TextKeys[0] == k;
    case PersonalAcc => assert TextKeys[1] == k;
    case BankName => assert TextKeys[2] == k;
    case BIC => assert TextKeys[3] == k;
    case CorrespAcc => assert TextKeys[4] == k;
    case PayeeINN => assert TextKeys[5] == k;
    case KPP => assert TextKeys[6] == k;
    case Purpose => assert TextKeys[7] == k;
    case Sum =>
  }

  /** The place of a key in the cleaning loop; Sum, which the loop skips, comes after all of them. */
  function TextIndex(k: Key): (r: nat)
    ensures k == Sum <==> r == |TextKeys|
    ensures r < |TextKeys| ==> TextKeys[r] == k
  {
    match k
    case Name => 0
    case PersonalAcc => 1
    case BankName => 2
    case BIC => 3
    case CorrespAcc => 4
    case PayeeINN => 5
    case KPP => 6
    case Purpose => 7
    case Sum => 8
  }

  lemma TextIndexOfTextKey(i: nat)
    requires i < |TextKeys|
    ensures TextIndex(TextKeys[i]) == i
  {
  }

  /** `f.get(k)` for one of the nine keys. */
  function Field(f: map<string, Value>, k: Key): Value {
    Get(f, KeyName(k))
  }

  lemma KeyNameInjective(a: Key, b: Key)
    ensures KeyName(a) == KeyName(b) ==> a == b
  {
  }

  const NoVatSuffix := "; Без НДС"

  const DefaultPurpose := "Оплата по счёту; Без НДС"

  // ---------------------------------------------------------------- amounts

  /** `kop[:2].ljust(2, "0")` */
  function TwoMinorDigits(k: string): (r: string)
    requires AllDigits(k)
    ensures |r| == 2 && AllDigits(r)
    ensures |k| >= 2 ==> r == k[..2]
    ensures |k| < 2 ==> r == k + (if |k| == 0 then "00" else "0")
  {
    if |k| >= 2 then k[..2] else if |k| == 1 then k + "0" else "00"
  }

  /** `int(rub or "0")` after the non-digits are dropped; None where `int` raises. */
  function WholeKop(rub: string): (r: Option<nat>)
    ensures AllDigits(rub) ==> r == Some(DigitsValue(rub))
  {
    var digits := OnlyDigits(if rub == [] then "0" else rub);
    assert rub == [] ==> digits == "0";
    if digits == [] then None else Some(DigitsValue(digits))
  }

  /** `int(kop[:2].ljust(2, "0"))` after the non-digits of `kop or "0"` are dropped. */
  function MinorKop(kop: string): (r: nat)
    ensures r < 100
    ensures AllDigits(kop) ==> r == DigitsValue(TwoMinorDigits(kop))
  {
    var digits := OnlyDigits(if kop == [] then "0" else kop);
    assert kop == [] ==> digits == "0" && TwoMinorDigits(digits) == "00" && TwoMinorDigits(kop) == "00";
    var two := TwoMinorDigits(digits);
    assert DigitsValue(two) == DigitValue(two[0]) * 10 + DigitValue(two[1]) by {
      var one := two[..1];
      assert one[..0] == [] && one[0] == two[0];
      assert DigitsValue(one) == DigitValue(two[0]);
      assert two[..|two| - 1] == one;
    }
    DigitsValue(two)
  }

  /**
   * The separator branch of `to_kop`: `rub, kop = s.split(sep, 1)`, then
   * `int(rub) * 100 + int(kop)`; None where `int` raises because the whole
   * part was not empty but held no digit.
   */
  function SeparatedKop(s: string, sep: char): Option<int>
    requires sep in s
  {
    var parts := SplitOnce(s, sep);
    match WholeKop(parts.0)
    case None => None
    case Some(rub) => Some(rub * 100 + MinorKop(parts.1))
  }

  /** `str(s).strip().replace(" ", "").replace("\u00A0", "")` */
  function SumText(s: string): string {
    RemoveChar(RemoveChar(Trim(s), ' '), '\U{A0}')
  }

  /** The kopecks of a cleaned amount text: the separator rule when a comma or dot is present, the digits alone otherwise. */
  function AmountKop(s: string): nat {
    if ',' in s || '.' in s then
      match SeparatedKop(s, if ',' in s then ',' else '.')
      case None => 0
      case Some(x) => if x > 0 then x else 0
    else
      var digits := OnlyDigits(s);
      DigitsValue(if digits == [] then "0" else digits)
  }

  /** `to_kop(v)`: the amount in whole kopecks, never negative. */
  function ToKop(v: Value): (r: nat)
    ensures v == Null ==> r == 0
    ensures v.Num? ==> r == if v.n > 0 then v.n else 0
  {
    match v
    case Null => 0
    case Num(n) => if n > 0 then n else 0
    case Str(s) => AmountKop(SumText(s))
  }

  /** Text with no whitespace reaches the amount rule unchanged. */
  lemma SumTextOfPlain(s: string)
    requires forall i :: 0 <= i < |s| ==> !IsSpace(s[i])
    ensures SumText(s) == s
  {
    TrimmedIsFixed(s);
    assert ' ' !in s && '\U{A0}' !in s;
  }

  /** A string of digits alone is read as kopecks. */
  lemma ToKopOfDigits(w: string)
    requires AllDigits(w)
    ensures ToKop(Str(w)) == DigitsValue(w)
  {
    SumTextOfPlain(w);
    assert ',' !in w && '.' !in w;
  }

  /** `str(n)` of a kopeck amount reads back as the same amount. */
  lemma ToKopOfNatString(n: nat)
    ensures ToKop(Str(NatToString(n))) == n
    ensures ToKop(Num(n)) == n
  {
    ToKopOfDigits(NatToString(n));
  }

  lemma SplitAtSeparator(w: string, sep: char, k: string)
    requires sep !in w
    ensures sep in w + [sep] + k && SplitOnce(w + [sep] + k, sep) == (w, k)
  {
    FindAfterPrefix(w, sep, k);
    var s := w + [sep] + k;
    assert s[..|w|] == w && s[|w| + 1..] == k;
  }

  /** The separator rule once the whole part is known to read as `x` roubles. */
  lemma AmountKopOfWhole(s: string, w: string, sep: char, k: string, x: nat)
    requires sep in s && sep == (if ',' in s then ',' else '.')
    requires SplitOnce(s, sep) == (w, k) && WholeKop(w) == Some(x)
    ensures AmountKop(s) == x * 100 + MinorKop(k)
  {
  }

  /** The separator rule when the whole part holds no digit: `int("")` raises and the amount is 0. */
  lemma AmountKopOfNoWhole(s: string, w: string, sep: char, k: string)
    requires sep in s && sep == (if ',' in s then ',' else '.')
    requires SplitOnce(s, sep) == (w, k) && WholeKop(w) == None
    ensures AmountKop(s) == 0
  {
  }

  lemma PlainSeparated(w: string, sep: char, k: string)
    requires AllDigits(w) && AllDigits(k) && (sep == ',' || sep == '.')
    ensures SumText(w + [sep] + k) == w + [sep] + k
    ensures ',' in w + [sep] + k <==> sep == ','
  {
    var s := w + [sep] + k;
    assert forall i :: 0 <= i < |s| ==> s[i] == sep || IsDigit(s[i]);
    SumTextOfPlain(s);
  }

  /**
   * Roubles, one separator and kopeck digits: whole part times 100 plus the
   * first two minor digits, right-padded with 0 ("12,5" is 1250 kopecks,
   * "12.345" is 1234).
   */
  lemma ToKopOfSeparated(w: string, sep: char, k: string)
    requires sep == ',' || sep == '.'
    requires AllDigits(w) && AllDigits(k)
    ensures ToKop(Str(w + [sep] + k)) == DigitsValue(w) * 100 + MinorKop(k)
  {
    var s := w + [sep] + k;
    PlainSeparated(w, sep, k);
    assert sep !in w;
    SplitAtSeparator(w, sep, k);
    AmountKopOfWhole(s, w, sep, k, DigitsValue(w));
  }

  /**
   * The comma wins over the dot: in "1.795,00" the whole part is "1.795",
   * whose digits are the roubles; with no digit before the comma `int` raises
   * and the amount is 0.
   */
  lemma CommaWinsOverDot(a: string, b: string, k: string)
    requires AllDigits(a) && AllDigits(b) && AllDigits(k)
    ensures ToKop(Str(a + ['.'] + b + [','] + k)) == if a + b == [] then 0 else DigitsValue(a + b) * 100 + MinorKop(k)
  {
    var w := a + ['.'] + b;
    var s := w + [','] + k;
    AllDigitsAppend(a, b);
    DottedWholePart(a, b, k);
    SplitAtSeparator(w, ',', k);
    if a + b == [] {
      AmountKopOfNoWhole(s, w, ',', k);
    } else {
      AmountKopOfWhole(s, w, ',', k, DigitsValue(a + b));
    }
  }

  lemma DottedWholePart(a: string, b: string, k: string)
    requires AllDigits(a) && AllDigits(b) && AllDigits(k)
    ensures var w := a + ['.'] + b;
            && SumText(w + [','] + k) == w + [','] + k
            && ',' !in w
            && WholeKop(w) == if a + b == [] then None else Some(DigitsValue(a + b))
  {
    var w := a + ['.'] + b;
    var s := w + [','] + k;
    assert forall i :: 0 <= i < |s| ==> s[i] == '.' || s[i] == ',' || IsDigit(s[i]);
    SumTextOfPlain(s);
    DotDropped(a, b);
    AllDigitsAppend(a, b);
  }

  /** The dot between two digit runs is the only character dropped. */
  lemma DotDropped(a: string, b: string)
    requires AllDigits(a) && AllDigits(b)
    ensures OnlyDigits(a + ['.'] + b) == a + b
  {
    OnlyDigitsAppend(a, ['.']);
    OnlyDigitsAppend(a + ['.'], b);
    assert OnlyDigits(['.']) == [];
  }

  /**
   * A space or a no-break space (U+00A0) between digit groups is dropped:
   * "1 795,00" and "1\u00A0795,00" are both 1795 roubles.
   */
  lemma SpaceBetweenGroups(a: string, sp: char, b: string, k: string)
    requires sp == ' ' || sp == '\U{A0}'
    requires a != [] && AllDigits(a) && AllDigits(b) && AllDigits(k)
    ensures ToKop(Str(a + [sp] + b + [','] + k)) == DigitsValue(a + b) * 100 + MinorKop(k)
  {
    var rest := b + [','] + k;
    var t := (a + b) + [','] + k;
    assert t == a + rest;
    assert a + [sp] + b + [','] + k == a + [sp] + rest;
    AllDigitsAppend(a, b);
    ToKopOfSeparated(a + b, ',', k);
    PlainSeparated(a + b, ',', k);
    RestIsPlain(b, k);
    SumTextDropsSpace(a, sp, rest);
  }

  lemma RestIsPlain(b: string, k: string)
    requires AllDigits(b) && AllDigits(k)
    ensures var rest := b + [','] + k; rest != [] && forall i :: 0 <= i < |rest| ==> rest[i] == ',' || IsDigit(rest[i])
  {
  }

  lemma SumTextDropsSpace(a: string, sp: char, rest: string)
    requires sp == ' ' || sp == '\U{A0}'
    requires a != [] && AllDigits(a)
    requires rest != [] && forall i :: 0 <= i < |rest| ==> rest[i] == ',' || IsDigit(rest[i])
    ensures SumText(a + [sp] + rest) == a + rest
  {
    var s := a + [sp] + rest;
    assert Trim(s) == s by {
      assert s[0] == a[0];
      assert s[|s| - 1] == rest[|rest| - 1];
      TrimmedIsFixed(s);
    }
    assert ' ' !in a && '\U{A0}' !in a;
    assert ' ' !in rest && '\U{A0}' !in rest;
    DropSeparator(a, sp, rest);
  }

  /** Both removals together take out the one separator and nothing else. */
  lemma DropSeparator(a: string, sp: char, rest: string)
    requires sp == ' ' || sp == '\U{A0}'
    requires ' ' !in a && '\U{A0}' !in a && ' ' !in rest && '\U{A0}' !in rest
    ensures RemoveChar(RemoveChar(a + [sp] + rest, ' '), '\U{A0}') == a + rest
  {
    var s := a + [sp] + rest;
    assert '\U{A0}' !in a + rest;
    if sp == ' ' {
      RemoveOne(a, ' ', rest);
    } else {
      assert ' ' !in s;
      RemoveOne(a, '\U{A0}', rest);
    }
  }

  /** Removing a character that occurs once, between `a` and `rest`, leaves `a + rest`. */
  lemma RemoveOne(a: string, c: char, rest: string)
    requires c !in a && c !in rest
    ensures RemoveChar(a + [c] + rest, c) == a + rest
  {
    RemoveCharAppend(a + [c], rest, c);
    RemoveCharAppend(a, [c], c);
    assert RemoveChar([c], c) == [];
  }

  // ----------------------------------------------------------------- VAT mark

  /** The upper case of the characters that Python's `str.upper()` maps onto Н, Д or С. */
  function VatUpper(c: char): char {
    if c == 'н' then 'Н'
    else if c == 'д' || c == '\U{1C81}' then 'Д'
    else if c == 'с' || c == '\U{1C83}' then 'С'
    else c
  }

  /** Position `i` of `p` starts the letters Н, Д, С after upper-casing. */
  predicate VatAt(p: string, i: int) {
    0 <= i < |p| - 2 && VatUpper(p[i]) == 'Н' && VatUpper(p[i + 1]) == 'Д' && VatUpper(p[i + 2]) == 'С'
  }

  /** `"НДС" in p.upper()` */
  predicate MentionsVat(p: string) {
    exists i :: 0 <= i < |p| && VatAt(p, i)
  }

  lemma SuffixMentionsVat(p: string)
    ensures MentionsVat(p + NoVatSuffix)
  {
    var s := p + NoVatSuffix;
    assert VatAt(s, |p| + 6);
  }

  lemma DefaultMentionsVat()
    ensures MentionsVat(DefaultPurpose)
  {
    assert VatAt(DefaultPurpose, 21);
  }

  /** Blanking the delimiters keeps the VAT mark: its letters are not delimiters. */
  lemma BlankKeepsVat(v: string, i: int)
    requires VatAt(v, i)
    ensures VatAt(BlankDelimiters(v), i)
  {
    BlankDelimitersSpec(v);
  }

  lemma SliceKeepsVat(v: string, a: int, b: int, i: int)
    requires 0 <= a <= i && i + 2 < b <= |v| && VatAt(v, i)
    ensures VatAt(v[a..b], i - a)
  {
  }

  /** Stripping keeps the VAT mark: its letters are not whitespace. */
  lemma TrimKeepsVat(v: string, i: int) returns (j: int)
    requires VatAt(v, i)
    ensures VatAt(Trim(v), j)
  {
    assert !IsSpace(v[i]) && !IsSpace(v[i + 2]);
    var a, b := TrimBounds(v);
    SliceKeepsVat(v, a, b, i);
    j := i - a;
  }

  // ----------------------------------------------------------- normalisation

  /** The character a delimiter of the payment string (`|`, CR, LF) is replaced by: a space. */
  function BlankChar(c: char): char {
    if c == '|' || c == '\r' || c == '\n' then ' ' else c
  }

  /**
   * `s.replace("|", " ").replace("\r", " ").replace("\n", " ")`, the three
   * replacements done in one pass (each puts in a space, which none of the
   * later ones replaces).
   */
  function BlankDelimiters(s: string): (r: string)
    ensures |r| == |s|
  {
    if s == [] then [] else BlankDelimiters(s[..|s| - 1]) + [BlankChar(s[|s| - 1])]
  }

  lemma {:induction false} BlankDelimitersSpec(s: string)
    ensures forall i :: 0 <= i < |s| ==> BlankDelimiters(s)[i] == BlankChar(s[i])
  {
    if s != [] {
      BlankDelimitersSpec(s[..|s| - 1]);
    }
  }

  /** `str(v).replace("|", " ").replace("\r", " ").replace("\n", " ").strip()` */
  function CleanText(v: string): string {
    Trim(BlankDelimiters(v))
  }

  /** What the text of a payment field may be: stripped and free of the delimiters of the payment string. */
  predicate IsClean(s: string) {
    IsTrimmed(s) && '|' !in s && '\r' !in s && '\n' !in s
  }

  lemma CleanTextIsClean(v: string)
    ensures IsClean(CleanText(v))
  {
    var r := BlankDelimiters(v);
    BlankDelimitersSpec(v);
    assert '|' !in r && '\r' !in r && '\n' !in r;
    TrimIsTrimmed(r);
    var a, b := TrimBounds(r);
    assert forall x :: x in r[a..b] ==> x in r;
  }

  lemma CleanTextOfClean(v: string)
    requires IsClean(v)
    ensures CleanText(v) == v
  {
    BlankDelimitersSpec(v);
    assert BlankDelimiters(v) == v;
    TrimmedIsFixed(v);
  }

  lemma CleanTextKeepsVat(v: string)
    requires MentionsVat(v)
    ensures MentionsVat(CleanText(v))
  {
    var i :| 0 <= i < |v| && VatAt(v, i);
    BlankKeepsVat(v, i);
    var j := TrimKeepsVat(BlankDelimiters(v), i);
    assert 0 <= j < |CleanText(v)|;
  }

  /**
   * The Purpose rule on the raw text: stripped, "; Без НДС" added when VAT
   * is not mentioned, "Оплата по счёту; Без НДС" when empty.
   */
  function PurposeOf(raw: string): string {
    var p := Trim(raw);
    var withVat := if p != [] && !MentionsVat(p) then p + NoVatSuffix else p;
    if withVat == [] then DefaultPurpose else withVat
  }

  /** What `out[k]` holds after the Sum and Purpose assignments and before the cleaning loop. */
  function Staged(f: map<string, Value>, k: Key): Value {
    if k == Sum then Num(ToKop(Field(f, Sum)))
    else if k == Purpose then Str(PurposeOf(PyStr(OrEmpty(Field(f, Purpose)))))
    else OrEmpty(Field(f, k))
  }

  /** One turn of the cleaning loop: `str(v)` with the delimiters blanked out, stripped. */
  function CleanValue(v: Value): Value {
    Str(CleanText(PyStr(v)))
  }

  /** The dictionary before the cleaning loop: Sum converted, Purpose settled, every other key as given. */
  function StagedMap(f: map<string, Value>): map<Key, Value> {
    map k: Key | true :: Staged(f, k)
  }

  /** The cleaning loop's result from a staged dictionary: every value but Sum made clean text. */
  function Cleaned(s: map<Key, Value>): map<Key, Value> {
    map k | k in s :: if k == Sum then s[k] else CleanValue(s[k])
  }

  /** The dictionary `normalize_fields(f)` returns. */
  function Normalized(f: map<string, Value>): map<Key, Value> {
    Cleaned(StagedMap(f))
  }

  /** The value `normalize_fields(f)` gives key `k`. */
  function NormalizedValue(f: map<string, Value>, k: Key): Value {
    if k == Sum then Staged(f, Sum) else CleanValue(Staged(f, k))
  }

  lemma NormalizedAt(f: map<string, Value>, k: Key)
    ensures k in Normalized(f) && Normalized(f)[k] == NormalizedValue(f, k)
  {
    assert k in StagedMap(f) && StagedMap(f)[k] == Staged(f, k);
  }

  /** `normalize_fields(f)` */
  method NormalizeFields(f: map<string, Value>) returns (out: map<Key, Value>)
    ensures out == Normalized(f)
  {
    out := map k: Key | true :: OrEmpty(Field(f, k));
    out := out[Sum := Num(ToKop(Field(f, Sum)))];
    var purpose := Trim(PyStr(OrEmpty(out[Purpose])));
    if purpose != [] && !MentionsVat(purpose) {
      purpose := purpose + NoVatSuffix;
    }
    if purpose == [] {
      purpose := DefaultPurpose;
    }
    out := out[Purpose := Str(purpose)];
    StagedIsMap(f, out);
    out := CleanTextFields(out);
  }

  /** The cleaning loop of `normalize_fields`: every value but Sum becomes clean text. */
  method CleanTextFields(staged: map<Key, Value>) returns (out: map<Key, Value>)
    requires forall k: Key :: k in staged
    ensures out == Cleaned(staged)
  {
    out := staged;
    for i := 0 to |TextKeys|
      invariant forall k: Key :: k in out && out[k] == if TextIndex(k) < i then CleanValue(staged[k]) else staged[k]
    {
      var key := TextKeys[i];
      TextIndexOfTextKey(i);
      out := out[key := CleanValue(out[key])];
    }
    CleanedAll(staged, out);
  }

  /** The dictionary the method builds before its cleaning loop is the staged one. */
  lemma StagedIsMap(f: map<string, Value>, m: map<Key, Value>)
    requires m == (map k: Key | true :: OrEmpty(Field(f, k)))[Sum := Num(ToKop(Field(f, Sum)))]
                  [Purpose := Str(PurposeOf(PyStr(OrEmpty(Field(f, Purpose)))))]
    ensures m == StagedMap(f)
  {
    forall k: Key
      ensures k in m && m[k] == StagedMap(f)[k]
    {
    }
  }

  /** After all eight text keys every value but Sum is cleaned. */
  lemma CleanedAll(s: map<Key, Value>, m: map<Key, Value>)
    requires forall k: Key :: k in s
    requires forall k: Key :: k in m && m[k] == if TextIndex(k) < |TextKeys| then CleanValue(s[k]) else s[k]
    ensures m == Cleaned(s)
  {
    forall k: Key
      ensures k in Cleaned(s) && m[k] == Cleaned(s)[k]
    {
    }
  }

  /**
   * The normalised dictionary holds exactly the nine keys; Sum is `to_kop`
   * of the input's Sum; every other value is clean text; the Purpose is not
   * empty and mentions VAT.
   */
  lemma NormalizedShape(f: map<string, Value>)
    ensures forall k: Key :: k in Normalized(f)
    ensures Normalized(f)[Sum] == Num(ToKop(Field(f, Sum)))
    ensures forall k :: k != Sum ==> Normalized(f)[k].Str? && IsClean(Normalized(f)[k].s)
    ensures Normalized(f)[Purpose].Str? && Normalized(f)[Purpose].s != [] && MentionsVat(Normalized(f)[Purpose].s)
  {
    forall k | k != Sum
      ensures Normalized(f)[k].Str? && IsClean(Normalized(f)[k].s)
    {
      NormalizedTextIsClean(f, k);
    }
    NormalizedPurposeMentionsVat(f);
  }

  lemma NormalizedTextIsClean(f: map<string, Value>, k: Key)
    requires k != Sum
    ensures Normalized(f)[k].Str? && IsClean(Normalized(f)[k].s)
  {
    NormalizedAt(f, k);
    CleanTextIsClean(PyStr(Staged(f, k)));
  }

  lemma NormalizedPurposeMentionsVat(f: map<string, Value>)
    ensures Normalized(f)[Purpose].Str? && MentionsVat(Normalized(f)[Purpose].s)
    ensures Normalized(f)[Purpose].s != []
  {
    NormalizedAt(f, Purpose);
    var raw := PyStr(OrEmpty(Field(f, Purpose)));
    assert Staged(f, Purpose) == Str(PurposeOf(raw));
    PurposeMentionsVat(raw);
    CleanTextKeepsVat(PurposeOf(raw));
  }

  lemma PurposeMentionsVat(raw: string)
    ensures MentionsVat(PurposeOf(raw))
  {
    var p := Trim(raw);
    if p == [] {
      DefaultMentionsVat();
    } else if !MentionsVat(p) {
      SuffixMentionsVat(p);
    }
  }

  /**
   * The Purpose rule: an empty Purpose becomes "Оплата по счёту; Без НДС";
   * one that mentions VAT is only cleaned; any other gets "; Без НДС" appended.
   */
  lemma PurposeRule(f: map<string, Value>)
    ensures var p := Trim(PyStr(OrEmpty(Field(f, Purpose))));
            && (p == [] ==> Normalized(f)[Purpose] == Str(DefaultPurpose))
            && (p != [] && MentionsVat(p) ==> Normalized(f)[Purpose] == Str(CleanText(p)))
            && (p != [] && !MentionsVat(p) ==> Normalized(f)[Purpose] == Str(CleanText(p + NoVatSuffix)))
  {
    NormalizedAt(f, Purpose);
    var raw := PyStr(OrEmpty(Field(f, Purpose)));
    assert Staged(f, Purpose) == Str(PurposeOf(raw));
    PurposeOfCases(raw);
  }

  lemma PurposeOfCases(raw: string)
    ensures var p := Trim(raw);
            && (p == [] ==> CleanText(PurposeOf(raw)) == DefaultPurpose)
            && (p != [] && MentionsVat(p) ==> PurposeOf(raw) == p)
            && (p != [] && !MentionsVat(p) ==> PurposeOf(raw) == p + NoVatSuffix)
  {
    if Trim(raw) == [] {
      DefaultIsClean();
      CleanTextOfClean(DefaultPurpose);
    }
  }

  lemma DefaultIsClean()
    ensures IsClean(DefaultPurpose)
  {
    var d := DefaultPurpose;
    assert d[0] == 'О' && d[|d| - 1] == 'С';
    assert forall i :: 0 <= i < |d| ==> d[i] != '|' && d[i] != '\r' && d[i] != '\n';
  }

  /** The normalised dictionary as the string-keyed dictionary the rest of the program reads. */
  function AsDict(n: map<Key, Value>): (d: map<string, Value>)
    ensures forall k :: k in n ==> Field(d, k) == n[k]
  {
    var d := map k | k in n.Keys :: KeyName(k) := n[k];
    assert forall k :: k in n ==> Field(d, k) == n[k] by {
      forall k | k in n
        ensures Field(d, k) == n[k]
      {
        assert KeyName(k) in d;
        var k' :| k' in n.Keys && KeyName(k') == KeyName(k) && d[KeyName(k)] == n[k'];
        KeyNameInjective(k, k');
      }
    }
    d
  }

  /** Normalising twice changes nothing. */
  lemma NormalizeIdempotent(f: map<string, Value>)
    ensures Normalized(AsDict(Normalized(f))) == Normalized(f)
  {
    var n := Normalized(f);
    var n' := Normalized(AsDict(n));
    forall k: Key
      ensures k in n && k in n' && n'[k] == n[k]
    {
      NormalizedAt(f, k);
      NormalizedAt(AsDict(n), k);
      NormalizeIdempotentAt(f, k);
    }
  }

  lemma NormalizeIdempotentAt(f: map<string, Value>, k: Key)
    ensures NormalizedValue(AsDict(Normalized(f)), k) == Normalized(f)[k]
  {
    var n := Normalized(f);
    var d := AsDict(n);
    assert Field(d, k) == n[k];
    NormalizedAt(f, k);
    if k == Sum {
      assert n[Sum] == Num(ToKop(Field(f, Sum)));
    } else if k == Purpose {
      NormalizedPurposeMentionsVat(f);
      NormalizedTextIsClean(f, Purpose);
      PurposeOfSettled(n[Purpose].s);
      CleanValueOfClean(n[Purpose]);
    } else {
      NormalizedTextIsClean(f, k);
      CleanValueOfClean(n[k]);
    }
  }

  /** A Purpose that is already clean, non-empty and mentions VAT is kept as it is. */
  lemma PurposeOfSettled(c: string)
    requires IsClean(c) && c != [] && MentionsVat(c)
    ensures PurposeOf(PyStr(OrEmpty(Str(c)))) == c
  {
    TrimmedIsFixed(c);
  }

  /** Cleaning text that is already clean changes nothing. */
  lemma CleanValueOfClean(v: Value)
    requires v.Str? && IsClean(v.s)
    ensures CleanValue(OrEmpty(v)) == v
  {
    CleanTextOfClean(v.s);
  }
}
