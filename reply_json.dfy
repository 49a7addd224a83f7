/**
 * Locating the JSON object in a language model's reply (main_web_v2.py):
 * code fences are stripped, then the first balanced top-level `{...}` is
 * cut out by a scanner that honours double-quoted strings and backslash
 * escapes, and that text is handed to `json.loads`.
 */
module ReplyJson {
  import opened Wrappers
  import opened Text

  const Fence := "```"

  /** Four characters that `json` matches under `re.IGNORECASE` (U+017F, the long s, matches `s`). */
  predicate IsJsonTag(w: string) {
    && |w| == 4
    && (w[0] == 'j' || w[0] == 'J')
    && (w[1] == 's' || w[1] == 'S' || w[1] == '\U{17F}')
    && (w[2] == 'o' || w[2] == 'O')
    && (w[3] == 'n' || w[3] == 'N')
  }

  /** `re.sub(r"^```(?:json)?\s*", "", t, flags=re.IGNORECASE)` on a string that starts with the fence. */
  function DropOpenFence(t: string): string
    requires StartsWith(t, Fence)
  {
    TrimStart(DropJsonTag(t[3..]))
  }

  /** The optional `(?:json)` group: taken whenever the text starts with it. */
  function DropJsonTag(u: string): string {
    if |u| >= 4 && IsJsonTag(u[..4]) then u[4..] else u
  }

  /**
   * `re.sub(r"\s*```$", "", u)`: a closing fence and the whitespace before it.
   * Without MULTILINE, `$` matches at the end and also just before a final newline.
   */
  function DropCloseFence(u: string): string {
    if EndsWith(u, Fence) then TrimEnd(u[..|u| - 3])
    else if EndsWith(u, Fence + "\n") then TrimEnd(u[..|u| - 4]) + "\n"
    else u
  }

  /** `_strip_code_fences(s)` */
  function StripCodeFences(s: string): (r: string)
    ensures IsTrimmed(r)
    ensures !StartsWith(Trim(s), Fence) ==> r == Trim(s)
  {
    var t := Trim(s);
    TrimIsTrimmed(s);
    if StartsWith(t, Fence) then
      var r := Trim(DropCloseFence(DropOpenFence(t)));
      TrimIsTrimmed(DropCloseFence(DropOpenFence(t)));
      r
    else t
  }

  /** Whitespace only, as `\s*` matches it. */
  predicate AllSpace(w: string) {
    forall i :: 0 <= i < |w| ==> IsSpace(w[i])
  }

  /**
   * A fenced reply loses exactly its fences: the opening fence may carry the
   * `json` tag in any letter case, and any run of whitespace may separate
   * either fence from the body. Without the tag and without whitespace the
   * body must not itself begin with the tag, which the pattern would take.
   */
  lemma StripFenced(tag: string, w1: string, body: string, w2: string)
    requires body != [] && IsTrimmed(body)
    requires tag == [] || IsJsonTag(tag)
    requires AllSpace(w1) && AllSpace(w2)
    requires tag == [] && w1 == [] ==> !(|body| >= 4 && IsJsonTag(body[..4]))
    ensures StripCodeFences((Fence + tag + w1) + body + (w2 + Fence)) == body
  {
    var s := (Fence + tag + w1) + body + (w2 + Fence);
    var rest := body + w2 + Fence;
    assert s == Fence + (tag + w1 + rest);
    assert Trim(s) == s && StartsWith(s, Fence) by {
      assert s[0] == '`' && s[|s| - 1] == '`';
      TrimmedIsFixed(s);
      assert s[..3] == Fence;
    }
    assert DropOpenFence(s) == rest by {
      if tag == [] && w1 == [] && |rest| >= 4 {
        if |body| >= 4 {
          assert rest[..4] == body[..4];
        } else {
          assert IsSpace(rest[|body|]) || rest[|body|] == '`';
        }
      }
      DropOpenFenceOf(tag, w1, rest);
    }
    assert DropCloseFence(rest) == body by {
      DropCloseFenceOf(body, w2);
    }
    TrimmedIsFixed(body);
  }

  /** The two fenced forms a model usually writes. */
  lemma StripFencedBody(body: string)
    requires body != [] && IsTrimmed(body)
    ensures StripCodeFences("```json\n" + body + "\n```") == body
    ensures StripCodeFences("```\n" + body + "\n```") == body
  {
    assert IsJsonTag("json");
    assert "```json\n" == Fence + "json" + "\n" && "\n```" == "\n" + Fence;
    StripFenced("json", "\n", body, "\n");
    assert "```\n" == Fence + [] + "\n";
    StripFenced([], "\n", body, "\n");
  }

  /** An upper-case tag, a carriage return and a space are stripped as well. */
  lemma StripFencedUpper(body: string)
    requires body != [] && IsTrimmed(body)
    ensures StripCodeFences("```JSON  \r\n" + body + " \n```") == body
  {
    assert IsJsonTag("JSON");
    assert "```JSON  \r\n" == Fence + "JSON" + "  \r\n" && " \n```" == " \n" + Fence;
    StripFenced("JSON", "  \r\n", body, " \n");
  }

  lemma DropOpenFenceOf(tag: string, w1: string, rest: string)
    requires tag == [] || IsJsonTag(tag)
    requires AllSpace(w1)
    requires rest != [] && !IsSpace(rest[0])
    requires tag == [] && w1 == [] ==> !(|rest| >= 4 && IsJsonTag(rest[..4]))
    ensures DropOpenFence(Fence + (tag + w1 + rest)) == rest
  {
    var t := Fence + (tag + w1 + rest);
    assert t[..3] == Fence;
    var u := t[3..];
    assert u == tag + w1 + rest;
    var v := w1 + rest;
    if tag != [] {
      assert u[..4] == tag;
      assert u[4..] == v;
    } else if w1 != [] {
      assert u == v;
      assert u[0] == w1[0];
    } else {
      assert u == rest;
    }
    assert DropJsonTag(u) == v;
    TrimStartAfterSpaces(w1, rest);
  }

  lemma DropCloseFenceOf(body: string, w2: string)
    requires body != [] && !IsSpace(body[|body| - 1])
    requires AllSpace(w2)
    ensures DropCloseFence(body + w2 + Fence) == body
  {
    var u := body + w2 + Fence;
    assert EndsWith(u, Fence) by { assert u[|u| - 3..] == Fence; }
    assert u[..|u| - 3] == body + w2;
    TrimEndBeforeSpaces(body, w2);
  }

  /** What `_find_first_json_object` tracks: brace depth, inside a string, just after a backslash. */
  datatype ScanState = ScanState(depth: int, inStr: bool, esc: bool)

  const Idle := ScanState(0, false, false)

  /** The effect of one character on the scanner. */
  function Step(st: ScanState, ch: char): ScanState {
    if st.inStr then
      if st.esc then st.(esc := false)
      else if ch == '\\' then st.(esc := true)
      else if ch == '"' then st.(inStr := false)
      else st
    else if ch == '"' then st.(inStr := true)
    else if ch == '{' then st.(depth := st.depth + 1)
    else if ch == '}' then st.(depth := st.depth - 1)
    else st
  }

  /** The scanner's state once it has read `s[start..i]`. */
  function StateAfter(s: string, start: nat, i: nat): ScanState
    requires start <= i <= |s|
    decreases i - start
  {
    if i == start then Idle else Step(StateAfter(s, start, i - 1), s[i - 1])
  }

  /** At `i` the scan returns: a `}` outside any string that brings the depth back to 0. */
  predicate ClosesAt(s: string, start: nat, i: nat)
    requires start <= i < |s|
  {
    var st := StateAfter(s, start, i);
    !st.inStr && s[i] == '}' && st.depth == 1
  }

  /** The least index from `i` on at which the scan returns. */
  function FirstClose(s: string, start: nat, i: nat): (r: Option<nat>)
    requires start <= i <= |s|
    ensures r.Some? ==> i <= r.value < |s| && ClosesAt(s, start, r.value)
    ensures r.Some? ==> forall j :: i <= j < r.value ==> !ClosesAt(s, start, j)
    ensures r.None? ==> forall j :: i <= j < |s| ==> !ClosesAt(s, start, j)
    decreases |s| - i
  {
    if i == |s| then None
    else if ClosesAt(s, start, i) then Some(i)
    else FirstClose(s, start, i + 1)
  }

  lemma FirstCloseIsLeast(s: string, start: nat, i: nat, m: nat)
    requires start <= i <= m < |s| && ClosesAt(s, start, m)
    requires forall j :: i <= j < m ==> !ClosesAt(s, start, j)
    ensures FirstClose(s, start, i) == Some(m)
  {
  }

  /** The object `_find_first_json_object(s)` returns: from the first `{` to the first return of the scan. */
  function FirstJsonObject(s: string): Option<string> {
    var start := Find(s, '{');
    if start == -1 then None
    else match FirstClose(s, start, start)
      case None => None
      case Some(i) => Some(s[start..i + 1])
  }

  /** `_find_first_json_object(s)` */
  method FindFirstJsonObject(s: string) returns (r: Option<string>)
    ensures r == FirstJsonObject(s)
  {
    var start := Find(s, '{');
    if start == -1 {
      return None;
    }
    var depth := 0;
    var inStr := false;
    var esc := false;
    for i := start to |s|
      invariant ScanState(depth, inStr, esc) == StateAfter(s, start, i)
      invariant FirstClose(s, start, start) == FirstClose(s, start, i)
    {
      var ch := s[i];
      if inStr {
        if esc {
          esc := false;
        } else if ch == '\\' {
          esc := true;
        } else if ch == '"' {
          inStr := false;
        }
      } else {
        if ch == '"' {
          inStr := true;
        } else if ch == '{' {
          depth := depth + 1;
        } else if ch == '}' {
          depth := depth - 1;
          if depth == 0 {
            assert ClosesAt(s, start, i);
            return Some(s[start..i + 1]);
          }
        }
      }
    }
    return None;
  }

  /** A backslash escape is pending only inside a string. */
  lemma {:induction false} EscOnlyInString(s: string, start: nat, i: nat)
    requires start <= i <= |s|
    ensures StateAfter(s, start, i).esc ==> StateAfter(s, start, i).inStr
    decreases i - start
  {
    if i > start {
      EscOnlyInString(s, start, i - 1);
    }
  }

  /** Until the scan returns, the depth stays at 1 or more after the opening brace. */
  lemma {:induction false} DepthPositive(s: string, start: nat, j: nat)
    requires start < j <= |s| && s[start] == '{'
    requires forall k :: start <= k < j ==> !ClosesAt(s, start, k)
    ensures StateAfter(s, start, j).depth >= 1
    decreases j - start
  {
    var st := StateAfter(s, start, j - 1);
    assert StateAfter(s, start, j) == Step(st, s[j - 1]);
    if j > start + 1 {
      DepthPositive(s, start, j - 1);
      assert !ClosesAt(s, start, j - 1);
    } else {
      assert st == Idle;
    }
  }

  /** The scan started at `start` never returns. */
  predicate NeverCloses(s: string, start: nat)
    requires start <= |s|
  {
    forall j :: start <= j < |s| ==> !ClosesAt(s, start, j)
  }

  /** None exactly when there is no `{` or the depth never comes back to 0. */
  lemma FirstJsonObjectNone(s: string)
    ensures FirstJsonObject(s).None? <==> ('{' !in s || NeverCloses(s, Find(s, '{')))
  {
    var start := Find(s, '{');
    if start != -1 {
      var r := FirstClose(s, start, start);
      if r.Some? {
        assert ClosesAt(s, start, r.value);
        assert !NeverCloses(s, start);
      }
    }
  }

  /**
   * A found object is `s[start..i + 1]` for the first `{` at `start` and the
   * first return `i`: it opens with `{`, closes with `}`, the depth is
   * positive strictly inside it, and after it the scanner is idle again
   * (depth 0, outside any string, no escape pending).
   */
  lemma FoundObjectIsBalanced(s: string) returns (start: nat, i: nat)
    requires FirstJsonObject(s).Some?
    ensures start == Find(s, '{') && start <= i < |s|
    ensures FirstJsonObject(s).value == s[start..i + 1]
    ensures ClosesAt(s, start, i) && forall j :: start <= j < i ==> !ClosesAt(s, start, j)
    ensures s[start] == '{' && s[i] == '}'
    ensures forall j :: start < j <= i ==> StateAfter(s, start, j).depth >= 1
    ensures StateAfter(s, start, i + 1) == Idle
  {
    start := Find(s, '{');
    i := FirstClose(s, start, start).value;
    forall j | start < j <= i
      ensures StateAfter(s, start, j).depth >= 1
    {
      DepthPositive(s, start, j);
    }
    EscOnlyInString(s, start, i);
  }

  /** Reading `o` after a prefix scans it exactly as reading `o` alone. */
  lemma {:induction false} StateAfterShift(p: string, o: string, q: string, k: nat)
    requires k <= |o|
    ensures StateAfter(p + o + q, |p|, |p| + k) == StateAfter(o, 0, k)
  {
    if k > 0 {
      StateAfterShift(p, o, q, k - 1);
      assert (p + o + q)[|p| + k - 1] == o[k - 1];
    }
  }

  /** The scan of `o` after a prefix returns where the scan of `o` alone does. */
  lemma ClosesAtShift(p: string, o: string, q: string, k: nat)
    requires k < |o|
    ensures ClosesAt(p + o + q, |p|, |p| + k) == ClosesAt(o, 0, k)
  {
    StateAfterShift(p, o, q, k);
    assert (p + o + q)[|p| + k] == o[k];
  }

  /** An object that the scanner finds whole is still found after prose without `{` and before any suffix. */
  lemma ObjectAfterPrefix(p: string, o: string, q: string)
    requires '{' !in p
    requires FirstJsonObject(o) == Some(o)
    ensures FirstJsonObject(p + o + q) == Some(o)
  {
    var t := p + o + q;
    WholeObject(o);
    PrefixFind(p, o, q);
    ShiftedClose(p, o, q);
    assert t[|p|..|p| + |o|] == o;
  }

  lemma PrefixFind(p: string, o: string, q: string)
    requires '{' !in p && |o| > 0 && o[0] == '{'
    ensures Find(p + o + q, '{') == |p|
  {
    FindAfterPrefix(p, '{', o[1..] + q);
    assert p + o + q == p + ['{'] + (o[1..] + q);
  }

  /** The scan of `o` after a prefix returns at the end of `o` when the scan of `o` alone does. */
  lemma ShiftedClose(p: string, o: string, q: string)
    requires |o| > 0 && FirstClose(o, 0, 0) == Some(|o| - 1)
    ensures FirstClose(p + o + q, |p|, |p|) == Some(|p| + |o| - 1)
  {
    var t := p + o + q;
    var m := |o| - 1;
    forall j | |p| <= j < |p| + m
      ensures !ClosesAt(t, |p|, j)
    {
      ClosesAtShift(p, o, q, j - |p|);
    }
    ClosesAtShift(p, o, q, m);
    FirstCloseIsLeast(t, |p|, |p|, |p| + m);
  }

  /** An object found whole starts the scan at its first character and ends it at its last. */
  lemma WholeObject(o: string)
    requires FirstJsonObject(o) == Some(o)
    ensures |o| > 0 && o[0] == '{' && Find(o, '{') == 0
    ensures FirstClose(o, 0, 0) == Some(|o| - 1)
  {
    var st0, m := FoundObjectIsBalanced(o);
    assert |o[st0..m + 1]| == |o|;
  }

  /** The text `parse_gpt_json` hands to `json.loads`; None when the reply is empty and nothing is parsed. */
  function LoadsInput(raw: string): Option<string> {
    if raw == [] then None
    else
      var s := StripCodeFences(raw);
      match FirstJsonObject(s)
      case Some(o) => Some(o)
      case None => Some(s)
  }

  /**
   * `parse_gpt_json(raw)`. `loads` stands for `json.loads` (None where it
   * raises) and `empty` for the `{}` returned on every failure.
   */
  function ParseGptJson<V>(raw: string, loads: string -> Option<V>, empty: V): V {
    match LoadsInput(raw)
    case None => empty
    case Some(text) =>
      match loads(text)
      case None => empty
      case Some(v) => v
  }

  /** The value `json.loads` gives for `o`, or `{}` where it raises. */
  function LoadedOr<V>(o: string, loads: string -> Option<V>, empty: V): V {
    match loads(o)
    case None => empty
    case Some(v) => v
  }

  /** A reply with prose before and after the object parses as the object alone. */
  lemma ReplyWithProse<V>(p: string, o: string, q: string, loads: string -> Option<V>, empty: V)
    requires '{' !in p
    requires FirstJsonObject(o) == Some(o)
    requires !StartsWith(Trim(p + o + q), Fence)
    ensures ParseGptJson(p + o + q, loads, empty) == LoadedOr(o, loads, empty)
  {
    var _, _ := FoundObjectIsBalanced(o);
    var p', q' := TrimAround(p, o, q);
    ObjectAfterPrefix(p', o, q');
    assert StripCodeFences(p + o + q) == p' + o + q';
  }

  /** A reply fenced as ```json ... ``` parses as the object inside the fences. */
  lemma FencedReply<V>(o: string, loads: string -> Option<V>, empty: V)
    requires FirstJsonObject(o) == Some(o)
    ensures ParseGptJson("```json\n" + o + "\n```", loads, empty) == LoadedOr(o, loads, empty)
  {
    var _, _ := FoundObjectIsBalanced(o);
    StripFencedBody(o);
  }
}
