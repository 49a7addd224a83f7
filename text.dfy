/**
 * The string operations of Python that the bot relies on, on `seq<char>`
 * (a Dafny `char` is a Unicode scalar value, as a Python code point is):
 * `strip`, `find`, `rfind`, `split`, `join`, `replace`, `startswith`,
 * digit filtering by `re.sub(r"\D", "", s)`, `str(int)` and `int(str)`.
 * Digits are the ASCII digits only.
 */
module Text {
  import opened Wrappers

  /** The characters for which Python's `str.isspace()` holds; `\s` in a `str` pattern matches the same set. */
  predicate IsSpace(c: char) {
    || c == ' '
    || ('\t' <= c <= '\r')
    || ('\U{1C}' <= c <= '\U{1F}')
    || c == '\U{85}' || c == '\U{A0}' || c == '\U{1680}'
    || ('\U{2000}' <= c <= '\U{200A}')
    || c == '\U{2028}' || c == '\U{2029}' || c == '\U{202F}' || c == '\U{205F}' || c == '\U{3000}'
  }

  predicate IsDigit(c: char) {
    '0' <= c <= '9'
  }

  predicate AllDigits(s: string) {
    forall i :: 0 <= i < |s| ==> IsDigit(s[i])
  }

  lemma AllDigitsAppend(a: string, b: string)
    requires AllDigits(a) && AllDigits(b)
    ensures AllDigits(a + b)
  {
    var s := a + b;
    assert forall i :: 0 <= i < |s| ==> s[i] == if i < |a| then a[i] else b[i - |a|];
  }

  /** `s.startswith(p)` */
  predicate StartsWith(s: string, p: string) {
    |p| <= |s| && s[..|p|] == p
  }

  /** `s.endswith(p)` */
  predicate EndsWith(s: string, p: string) {
    |p| <= |s| && s[|s| - |p|..] == p
  }

  /** `s.find(c)`: the first index holding `c`, or -1. */
  function Find(s: string, c: char): (r: int)
    ensures -1 <= r < |s|
    ensures r == -1 <==> c !in s
    ensures 0 <= r ==> s[r] == c && c !in s[..r]
  {
    if |s| == 0 then -1
    else if s[0] == c then 0
    else
      var k := Find(s[1..], c);
      if k == -1 then -1
      else
        assert s[..k + 1] == [s[0]] + s[1..][..k];
        k + 1
  }

  /** `s.rfind(c)`: the last index holding `c`, or -1. */
  function RFind(s: string, c: char): (r: int)
    ensures -1 <= r < |s|
    ensures r == -1 <==> c !in s
    ensures 0 <= r ==> s[r] == c && forall j :: r < j < |s| ==> s[j] != c
  {
    LastBefore(s, c, |s|)
  }

  /** The last index below `n` holding `c`, or -1. */
  function LastBefore(s: string, c: char, n: nat): (r: int)
    requires n <= |s|
    ensures -1 <= r < n
    ensures r == -1 <==> forall j :: 0 <= j < n ==> s[j] != c
    ensures 0 <= r ==> s[r] == c && forall j :: r < j < n ==> s[j] != c
  {
    if n == 0 then -1
    else if s[n - 1] == c then n - 1
    else LastBefore(s, c, n - 1)
  }

  /** The first index of `c` in `a + [c] + b` is `|a|` when `a` has no `c`. */
  lemma FindAfterPrefix(a: string, c: char, b: string)
    requires c !in a
    ensures Find(a + [c] + b, c) == |a|
  {
    var s := a + [c] + b;
    assert s[|a|] == c;
    assert s[..|a|] == a;
  }

  /** `s.lstrip()` */
  function TrimStart(s: string): (r: string)
    ensures |r| <= |s|
  {
    if s != [] && IsSpace(s[0]) then TrimStart(s[1..]) else s
  }

  /** `s.rstrip()` */
  function TrimEnd(s: string): (r: string)
    ensures |r| <= |s|
  {
    if s != [] && IsSpace(s[|s| - 1]) then TrimEnd(s[..|s| - 1]) else s
  }

  /** `lstrip` removes a run of leading whitespace and stops at the first other character. */
  lemma {:induction false} TrimStartSpec(s: string)
    ensures var r := TrimStart(s);
            && r == s[|s| - |r|..]
            && (forall i :: 0 <= i < |s| - |r| ==> IsSpace(s[i]))
            && (r == [] || !IsSpace(r[0]))
  {
    if s != [] && IsSpace(s[0]) {
      TrimStartSpec(s[1..]);
    }
  }

  /** `rstrip` removes a run of trailing whitespace and stops at the last other character. */
  lemma {:induction false} TrimEndSpec(s: string)
    ensures var r := TrimEnd(s);
            && r == s[..|r|]
            && (forall i :: |r| <= i < |s| ==> IsSpace(s[i]))
            && (r == [] || !IsSpace(r[|r| - 1]))
  {
    if s != [] && IsSpace(s[|s| - 1]) {
      TrimEndSpec(s[..|s| - 1]);
    }
  }

  /** Leading whitespace followed by a part that does not start with whitespace: `lstrip` leaves that part. */
  lemma {:induction false} TrimStartAfterSpaces(w: string, x: string)
    requires forall i :: 0 <= i < |w| ==> IsSpace(w[i])
    requires x == [] || !IsSpace(x[0])
    ensures TrimStart(w + x) == x
  {
    if w == [] {
      assert w + x == x;
    } else {
      assert (w + x)[0] == w[0];
      assert (w + x)[1..] == w[1..] + x;
      TrimStartAfterSpaces(w[1..], x);
    }
  }

  /** A part that does not end in whitespace followed by whitespace: `rstrip` leaves that part. */
  lemma {:induction false} TrimEndBeforeSpaces(x: string, w: string)
    requires forall i :: 0 <= i < |w| ==> IsSpace(w[i])
    requires x == [] || !IsSpace(x[|x| - 1])
    ensures TrimEnd(x + w) == x
  {
    var s := x + w;
    if w == [] {
      assert s == x;
    } else {
      assert s[|s| - 1] == w[|w| - 1];
      assert s[..|s| - 1] == x + w[..|w| - 1];
      TrimEndBeforeSpaces(x, w[..|w| - 1]);
    }
  }

  /** `s.strip()` */
  function Trim(s: string): string {
    TrimEnd(TrimStart(s))
  }

  /** Neither end of `s` is whitespace: what `strip` leaves. */
  predicate IsTrimmed(s: string) {
    s == [] || (!IsSpace(s[0]) && !IsSpace(s[|s| - 1]))
  }

  /** `not s.strip()` */
  predicate IsBlank(s: string) {
    Trim(s) == []
  }

  lemma TrimIsTrimmed(s: string)
    ensures IsTrimmed(Trim(s))
  {
    var t := TrimStart(s);
    var r := TrimEnd(t);
    TrimStartSpec(s);
    TrimEndSpec(t);
    if r != [] {
      assert r[0] == t[0];
    }
  }

  lemma TrimmedIsFixed(s: string)
    requires IsTrimmed(s)
    ensures TrimStart(s) == s && TrimEnd(s) == s && Trim(s) == s
  {
  }

  /** Stripping keeps a contiguous part of the input and removes only whitespace around it. */
  lemma TrimBounds(s: string) returns (a: nat, b: nat)
    ensures a <= b <= |s| && Trim(s) == s[a..b]
    ensures forall i :: 0 <= i < a ==> IsSpace(s[i])
    ensures forall i :: b <= i < |s| ==> IsSpace(s[i])
    ensures a < b ==> !IsSpace(s[a]) && !IsSpace(s[b - 1])
  {
    var t := TrimStart(s);
    TrimStartSpec(s);
    TrimEndSpec(t);
    a := |s| - |t|;
    b := a + |TrimEnd(t)|;
    assert Trim(s) == t[..b - a];
    forall i | b <= i < |s| ensures IsSpace(s[i]) {
      assert s[i] == t[i - a];
    }
    TrimIsTrimmed(s);
    if a < b {
      assert Trim(s)[0] == s[a] && Trim(s)[b - a - 1] == s[b - 1];
    }
  }

  /** Stripping text around a part that starts and ends with non-whitespace keeps that part whole. */
  lemma TrimAround(p: string, o: string, q: string) returns (p': string, q': string)
    requires o != [] && !IsSpace(o[0]) && !IsSpace(o[|o| - 1])
    ensures Trim(p + o + q) == p' + o + q'
    ensures forall x :: x in p' ==> x in p
  {
    var raw := p + o + q;
    var a, b := TrimBounds(raw);
    var first, last := |p|, |p| + |o| - 1;
    assert raw[first] == o[0];
    assert raw[last] == o[|o| - 1];
    assert !IsSpace(raw[first]) && !IsSpace(raw[last]);
    assert a <= first && last < b;
    p' := p[a..];
    q' := q[..b - |p| - |o|];
    assert raw[a..b] == p' + o + q' by {
      assert raw == p + o + q;
    }
  }

  /** A trimmed non-empty string is not blank. */
  lemma TrimmedNonEmptyNotBlank(s: string)
    requires IsTrimmed(s) && s != []
    ensures !IsBlank(s)
  {
    TrimmedIsFixed(s);
  }

  /** `s.replace(c, "")` */
  function RemoveChar(s: string, c: char): (r: string)
    ensures c !in r
    ensures forall x :: x in r ==> x in s
    ensures c !in s ==> r == s
  {
    if s == [] then []
    else
      var r := RemoveChar(s[..|s| - 1], c);
      assert s == s[..|s| - 1] + [s[|s| - 1]];
      if s[|s| - 1] == c then r else r + [s[|s| - 1]]
  }

  /** `re.sub(r"\D", "", s)`: the digits of `s`, in order. */
  function OnlyDigits(s: string): (r: string)
    ensures AllDigits(r)
    ensures |r| <= |s|
    ensures AllDigits(s) ==> r == s
  {
    if s == [] then []
    else
      var r := OnlyDigits(s[..|s| - 1]);
      assert s == s[..|s| - 1] + [s[|s| - 1]];
      if IsDigit(s[|s| - 1]) then r + [s[|s| - 1]] else r
  }

  /** Removing a character distributes over concatenation. */
  lemma {:induction false} RemoveCharAppend(x: string, y: string, c: char)
    ensures RemoveChar(x + y, c) == RemoveChar(x, c) + RemoveChar(y, c)
    decreases |y|
  {
    if y != [] {
      var y' := y[..|y| - 1];
      assert (x + y)[..|x + y| - 1] == x + y';
      RemoveCharAppend(x, y', c);
    } else {
      assert x + y == x;
    }
  }

  /** Keeping the digits distributes over concatenation. */
  lemma {:induction false} OnlyDigitsAppend(x: string, y: string)
    ensures OnlyDigits(x + y) == OnlyDigits(x) + OnlyDigits(y)
    decreases |y|
  {
    if y != [] {
      var y' := y[..|y| - 1];
      assert (x + y)[..|x + y| - 1] == x + y';
      OnlyDigitsAppend(x, y');
    } else {
      assert x + y == x;
    }
  }

  function DigitValue(c: char): nat
    requires IsDigit(c)
  {
    c as int - '0' as int
  }

  function DigitChar(d: nat): (c: char)
    requires d < 10
    ensures IsDigit(c) && DigitValue(c) == d
  {
    ('0' as int + d) as char
  }

  /** `int(s)` for a string of ASCII digits, read most significant digit first. */
  function DigitsValue(s: string): (r: nat)
    requires AllDigits(s)
  {
    if s == [] then 0 else DigitsValue(s[..|s| - 1]) * 10 + DigitValue(s[|s| - 1])
  }

  /** `str(n)` for `n >= 0`: the shortest decimal numeral of `n`. */
  function NatToString(n: nat): (r: string)
    ensures |r| >= 1 && AllDigits(r) && DigitsValue(r) == n
    ensures r[0] == '0' ==> r == "0"
  {
    if n < 10 then [DigitChar(n)]
    else
      var r := NatToString(n / 10) + [DigitChar(n % 10)];
      assert r[..|r| - 1] == NatToString(n / 10);
      r
  }

  /** `str(i)`: a minus sign before negative numbers. */
  function IntToString(i: int): (r: string)
    ensures |r| >= 1 && IsTrimmed(r)
    ensures i >= 0 ==> r == NatToString(i)
    ensures i < 0 ==> r == "-" + NatToString(-i)
  {
    if i < 0 then "-" + NatToString(-i) else NatToString(i)
  }

  lemma IntToStringHasNoChar(i: int, c: char)
    requires c != '-' && !IsDigit(c)
    ensures c !in IntToString(i)
  {
    var r := IntToString(i);
    var d := NatToString(if i < 0 then -i else i);
    assert forall k :: 0 <= k < |r| ==> r[k] == '-' || IsDigit(r[k]) by {
      forall k | 0 <= k < |r| ensures r[k] == '-' || IsDigit(r[k]) {
        if i < 0 && k > 0 {
          assert r[k] == d[k - 1];
        }
      }
    }
  }

  /** Digits with single underscores between them, the digit part `int()` accepts ("1_000"). */
  predicate IsDigitGroups(b: string) {
    && |b| > 0 && IsDigit(b[0]) && IsDigit(b[|b| - 1])
    && forall i :: 0 <= i < |b| ==>
         IsDigit(b[i]) || (b[i] == '_' && 0 < i < |b| - 1 && IsDigit(b[i - 1]) && IsDigit(b[i + 1]))
  }

  /** `int(s)`: surrounding whitespace, an optional sign, then digit groups; None where Python raises ValueError. */
  function ParseInt(s: string): Option<int> {
    var t := Trim(s);
    var signed := |t| > 0 && (t[0] == '-' || t[0] == '+');
    var body := if signed then t[1..] else t;
    if !IsDigitGroups(body) then None
    else
      var n: int := DigitsValue(OnlyDigits(body));
      Some(if signed && t[0] == '-' then -n else n)
  }

  /** `int(str(i)) == i`, negative numbers included. */
  lemma DigitsAreGroups(d: string)
    requires |d| > 0 && AllDigits(d)
    ensures IsDigitGroups(d)
  {
  }

  lemma ParseIntOfIntToString(i: int)
    ensures ParseInt(IntToString(i)) == Some(i)
  {
    var r := IntToString(i);
    TrimmedIsFixed(r);
    assert Trim(r) == r;
    var d := NatToString(if i < 0 then -i else i);
    DigitsAreGroups(d);
    if i < 0 {
      assert r[0] == '-';
      assert r[1..] == d;
    } else {
      assert r == d;
      assert r[0] != '-' && r[0] != '+';
    }
  }

  /**
   * `s.split(c)`: the pieces between occurrences of `c`; one more piece
   * than there are occurrences, empty pieces kept.
   */
  function Split(s: string, c: char): (r: seq<string>)
    ensures |r| >= 1
    ensures forall k :: 0 <= k < |r| ==> c !in r[k]
    decreases |s|
  {
    var i := Find(s, c);
    if i == -1 then [s] else [s[..i]] + Split(s[i + 1..], c)
  }

  /** With more than one piece, the first piece and the separator begin the string. */
  lemma SplitHead(s: string, c: char)
    requires |Split(s, c)| >= 2
    ensures StartsWith(s, Split(s, c)[0] + [c])
  {
    var i := Find(s, c);
    assert i != -1;
    assert Split(s, c)[0] == s[..i];
    assert s[..i + 1] == s[..i] + [c];
  }

  /** `sep.join(parts)` */
  function Join(parts: seq<string>, sep: string): string {
    if |parts| == 0 then []
    else if |parts| == 1 then parts[0]
    else parts[0] + sep + Join(parts[1..], sep)
  }

  /** Three parts joined. */
  lemma JoinThree(a: string, b: string, c: string, sep: string)
    ensures Join([a, b, c], sep) == a + sep + b + sep + c
  {
    var p := [a, b, c];
    assert p[1..] == [b, c] && p[1..][1..] == [c];
    assert Join([b, c], sep) == b + sep + c;
    assert Join(p, sep) == a + sep + (b + sep + c);
  }

  /** Splitting a join on a separator that no part contains gives the parts back. */
  lemma {:induction false} SplitJoin(parts: seq<string>, c: char)
    requires |parts| >= 1
    requires forall k :: 0 <= k < |parts| ==> c !in parts[k]
    ensures Split(Join(parts, [c]), c) == parts
  {
    if |parts| > 1 {
      var rest := Join(parts[1..], [c]);
      FindAfterPrefix(parts[0], c, rest);
      var s := parts[0] + [c] + rest;
      assert s[..|parts[0]|] == parts[0];
      assert s[|parts[0]| + 1..] == rest;
      SplitJoin(parts[1..], c);
    }
  }

  /** `s.split(c, 1)` when `c` occurs: what comes before its first occurrence and what comes after. */
  function SplitOnce(s: string, c: char): (r: (string, string))
    requires c in s
    ensures c !in r.0 && s == r.0 + [c] + r.1
  {
    var i := Find(s, c);
    assert s == s[..i] + [c] + s[i + 1..];
    (s[..i], s[i + 1..])
  }
}
