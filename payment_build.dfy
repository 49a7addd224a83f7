/**
 * The payment string of the Russian QR standard ST00012 as the bot builds it
 * (main_web_v2.py `build_st00012`): the header "ST00012" and one
 * "Key=Value" entry per non-empty field, joined by `|`.
 */
module PaymentBuild {
  import opened Text
  import opened Fields

  const Header := "ST00012"

  /** The entry `f"{k}={v}"` for key `k`. */
  function Entry(k: Key, v: Value): string {
    KeyName(k) + "=" + PyStr(v)
  }

  /** What `add(k, v)` contributes: the entry when the value is truthy, nothing otherwise. */
  function Contribution(k: Key, v: Value): seq<string> {
    if Truthy(v) then [Entry(k, v)] else []
  }

  /** What `add(k, d.get(k))` contributes. */
  function EntryOf(d: map<string, Value>, k: Key): seq<string> {
    Contribution(k, Field(d, k))
  }

  /** What each key of `keys` contributes, in the order of `keys`. */
  function Collect(keys: seq<Key>, entry: Key -> seq<string>): seq<string> {
    if keys == [] then [] else Collect(keys[..|keys| - 1], entry) + entry(keys[|keys| - 1])
  }

  /** `EntryOf(d, _)` as a function of the key. */
  function EntryFn(d: map<string, Value>): Key -> seq<string> {
    k => EntryOf(d, k)
  }

  /**
   * The list `parts` at the end of `build_st00012(d)`: the header, then what each key contributes, in the order of
   * the `add` calls, which is the order of `REQ_KEYS`.
   */
  function Parts(d: map<string, Value>): seq<string> {
    [Header] + Collect(ReqKeys, EntryFn(d))
  }

  /** The nested `add(k, v)`: append `k=v` when `v` is truthy. */
  method Add(parts: seq<string>, k: Key, v: Value) returns (r: seq<string>)
    ensures r == parts + Contribution(k, v)
  {
    r := parts;
    if Truthy(v) {
      r := r + [Entry(k, v)];
    }
  }

  /** `build_st00012(d)` */
  method BuildSt00012(d: map<string, Value>) returns (st: string)
    ensures st == Join(Parts(d), "|")
  {
    var parts := [Header];
    parts := Add(parts, Name, Field(d, Name));
    parts := Add(parts, PersonalAcc, Field(d, PersonalAcc));
    parts := Add(parts, BankName, Field(d, BankName));
    parts := Add(parts, BIC, Field(d, BIC));
    parts := Add(parts, CorrespAcc, Field(d, CorrespAcc));
    parts := Add(parts, PayeeINN, Field(d, PayeeINN));
    parts := Add(parts, KPP, Field(d, KPP));
    if Truthy(Field(d, Sum)) {
      // `str(fields["Sum"])` of a truthy value is a non-empty string.
      var sum := Str(PyStr(Field(d, Sum)));
      assert Contribution(Sum, sum) == EntryOf(d, Sum);
      parts := Add(parts, Sum, sum);
    } else {
      assert parts + EntryOf(d, Sum) == parts;
    }
    parts := Add(parts, Purpose, Field(d, Purpose));
    ghost var f := EntryFn(d);
    CollectReqKeys([Header], f);
    assert f(Name) == EntryOf(d, Name);
    assert f(PersonalAcc) == EntryOf(d, PersonalAcc);
    assert f(BankName) == EntryOf(d, BankName);
    assert f(BIC) == EntryOf(d, BIC);
    assert f(CorrespAcc) == EntryOf(d, CorrespAcc);
    assert f(PayeeINN) == EntryOf(d, PayeeINN);
    assert f(KPP) == EntryOf(d, KPP);
    assert f(Sum) == EntryOf(d, Sum);
    assert f(Purpose) == EntryOf(d, Purpose);
    st := Join(parts, "|");
  }

  lemma {:induction false} CollectSnoc(keys: seq<Key>, k: Key, f: Key -> seq<string>)
    ensures Collect(keys + [k], f) == Collect(keys, f) + f(k)
  {
    assert (keys + [k])[..|keys|] == keys;
  }

  /** `Collect` over `REQ_KEYS` written out, after any prefix. */
  lemma CollectReqKeys(pre: seq<string>, f: Key -> seq<string>)
    ensures pre + Collect(ReqKeys, f) == pre + f(Name) + f(PersonalAcc) + f(BankName) + f(BIC) + f(CorrespAcc)
                                            + f(PayeeINN) + f(KPP) + f(Sum) + f(Purpose)
  {
    var p: seq<Key> := [];
    var e: seq<string> := pre;
    CollectSnoc(p, Name, f); p, e := p + [Name], e + f(Name);
    assert pre + Collect(p, f) == e;
    CollectSnoc(p, PersonalAcc, f); p, e := p + [PersonalAcc], e + f(PersonalAcc);
    assert pre + Collect(p, f) == e;
    CollectSnoc(p, BankName, f); p, e := p + [BankName], e + f(BankName);
    assert pre + Collect(p, f) == e;
    CollectSnoc(p, BIC, f); p, e := p + [BIC], e + f(BIC);
    assert pre + Collect(p, f) == e;
    CollectSnoc(p, CorrespAcc, f); p, e := p + [CorrespAcc], e + f(CorrespAcc);
    assert pre + Collect(p, f) == e;
    CollectSnoc(p, PayeeINN, f); p, e := p + [PayeeINN], e + f(PayeeINN);
    assert pre + Collect(p, f) == e;
    CollectSnoc(p, KPP, f); p, e := p + [KPP], e + f(KPP);
    assert pre + Collect(p, f) == e;
    CollectSnoc(p, Sum, f); p, e := p + [Sum], e + f(Sum);
    assert pre + Collect(p, f) == e;
    CollectSnoc(p, Purpose, f); p, e := p + [Purpose], e + f(Purpose);
    assert pre + Collect(p, f) == e;
    assert p == ReqKeys;
  }

  /** A string is collected exactly when some key of `keys` contributes it. */
  lemma {:induction false} CollectMember(keys: seq<Key>, f: Key -> seq<string>, x: string)
    ensures x in Collect(keys, f) <==> exists k :: k in keys && x in f(k)
  {
    if keys != [] {
      var n := |keys| - 1;
      CollectMember(keys[..n], f, x);
      assert keys == keys[..n] + [keys[n]];
      assert forall k :: k in keys <==> k in keys[..n] || k == keys[n];
    }
  }

  /** What an earlier key contributes is collected before what a later key contributes. */
  lemma {:induction false} CollectOrder(keys: seq<Key>, f: Key -> seq<string>, i: nat, j: nat, x: string, y: string)
      returns (p: nat, q: nat)
    requires i < j < |keys| && x in f(keys[i]) && y in f(keys[j])
    ensures p < q < |Collect(keys, f)| && Collect(keys, f)[p] == x && Collect(keys, f)[q] == y
  {
    var n := |keys| - 1;
    var front := Collect(keys[..n], f);
    var e := Collect(keys, f);
    assert e == front + f(keys[n]);
    if j < n {
      p, q := CollectOrder(keys[..n], f, i, j, x, y);
      assert e[p] == front[p] && e[q] == front[q];
    } else {
      CollectMember(keys[..n], f, x);
      assert keys[..n][i] == keys[i];
      p :| 0 <= p < |front| && front[p] == x;
      var q' :| 0 <= q' < |f(keys[n])| && f(keys[n])[q'] == y;
      q := |front| + q';
      assert e[p] == front[p] && e[q] == f(keys[n])[q'];
    }
  }

  /** No collected string contains `c` when no contribution does. */
  lemma {:induction false} CollectAvoids(keys: seq<Key>, f: Key -> seq<string>, c: char)
    requires forall k, x :: k in keys && x in f(k) ==> c !in x
    ensures forall x :: x in Collect(keys, f) ==> c !in x
  {
    forall x | x in Collect(keys, f)
      ensures c !in x
    {
      CollectMember(keys, f, x);
    }
  }

  /** The text before the first `=` of an entry is its key's name, the rest its value's text. */
  lemma EntrySplits(k: Key, v: Value)
    ensures '=' in Entry(k, v) && SplitOnce(Entry(k, v), '=') == (KeyName(k), PyStr(v))
  {
    var e := Entry(k, v);
    KeyNameAvoids(k);
    FindAfterPrefix(KeyName(k), '=', PyStr(v));
    assert e[..|KeyName(k)|] == KeyName(k);
    assert e[|KeyName(k)| + 1..] == PyStr(v);
  }

  lemma KeyNameAvoids(k: Key)
    ensures '=' !in KeyName(k) && '|' !in KeyName(k)
  {
  }

  /** Equal entries are for the same key. */
  lemma EntryKeyUnique(a: Key, b: Key, u: Value, v: Value)
    requires Entry(a, u) == Entry(b, v)
    ensures a == b
  {
    EntrySplits(a, u);
    EntrySplits(b, v);
    KeyNameInjective(a, b);
  }

  /** A value's text has no `|` when it is clean text or a number. */
  predicate BarFree(v: Value) {
    '|' !in PyStr(v)
  }

  /**
   * `build_st00012(d)` writes the header, then an entry `Key=Value` for
   * exactly the keys whose value is truthy (so a zero Sum and an empty
   * field leave none), in `REQ_KEYS` order, and nothing else.
   */
  lemma BuildEntries(d: map<string, Value>)
    ensures Parts(d)[0] == Header
    ensures forall k: Key :: Entry(k, Field(d, k)) in Parts(d)[1..] <==> Truthy(Field(d, k))
    ensures forall x :: x in Parts(d)[1..] ==> exists k: Key :: Truthy(Field(d, k)) && x == Entry(k, Field(d, k))
  {
    assert Parts(d)[1..] == Collect(ReqKeys, EntryFn(d));
    forall k: Key
      ensures Entry(k, Field(d, k)) in Parts(d)[1..] <==> Truthy(Field(d, k))
    {
      EntryInParts(d, k);
    }
    forall x | x in Parts(d)[1..]
      ensures exists k: Key :: Truthy(Field(d, k)) && x == Entry(k, Field(d, k))
    {
      PartIsEntry(d, x);
    }
  }

  lemma EntryInParts(d: map<string, Value>, k: Key)
    ensures Entry(k, Field(d, k)) in Collect(ReqKeys, EntryFn(d)) <==> Truthy(Field(d, k))
  {
    var f := EntryFn(d);
    var x := Entry(k, Field(d, k));
    CollectMember(ReqKeys, f, x);
    if x in Collect(ReqKeys, f) {
      var k' :| k' in ReqKeys && x in f(k');
      EntryOwnKey(d, k, k');
    } else {
      TextKeysComplete(k);
      EntryOwnKey(d, k, k);
    }
  }

  /** Key `k'` contributes the entry of `k` only when they are the same key and its value is truthy. */
  lemma EntryOwnKey(d: map<string, Value>, k: Key, k': Key)
    ensures Entry(k, Field(d, k)) in EntryFn(d)(k') <==> k == k' && Truthy(Field(d, k))
  {
    assert EntryFn(d)(k') == EntryOf(d, k');
    if Entry(k, Field(d, k)) in EntryOf(d, k') {
      EntryKeyUnique(k, k', Field(d, k), Field(d, k'));
    }
  }

  lemma PartIsEntry(d: map<string, Value>, x: string)
    requires x in Collect(ReqKeys, EntryFn(d))
    ensures exists k: Key :: Truthy(Field(d, k)) && x == Entry(k, Field(d, k))
  {
    var f := EntryFn(d);
    CollectMember(ReqKeys, f, x);
    var k' :| k' in ReqKeys && x in f(k');
    assert f(k') == EntryOf(d, k');
  }

  /** Of two truthy fields, the one earlier in `REQ_KEYS` has its entry earlier in the payment string. */
  lemma BuildKeepsOrder(d: map<string, Value>, i: nat, j: nat)
    requires i < j < |ReqKeys|
    requires Truthy(Field(d, ReqKeys[i])) && Truthy(Field(d, ReqKeys[j]))
    ensures exists p, q :: 1 <= p < q < |Parts(d)|
              && Parts(d)[p] == Entry(ReqKeys[i], Field(d, ReqKeys[i]))
              && Parts(d)[q] == Entry(ReqKeys[j], Field(d, ReqKeys[j]))
  {
    var f := EntryFn(d);
    var a, b := ReqKeys[i], ReqKeys[j];
    var x, y := Entry(a, Field(d, a)), Entry(b, Field(d, b));
    EntryOwnKey(d, a, a);
    EntryOwnKey(d, b, b);
    var p, q := CollectOrder(ReqKeys, f, i, j, x, y);
    AfterHeader(Header, Collect(ReqKeys, f), p);
    AfterHeader(Header, Collect(ReqKeys, f), q);
    assert Parts(d)[p + 1] == x && Parts(d)[q + 1] == y;
  }

  lemma AfterHeader(h: string, e: seq<string>, p: nat)
    requires p < |e|
    ensures ([h] + e)[p + 1] == e[p]
  {
  }

  /** No part contains the `|` delimiter when no value's text does. */
  lemma PartsAvoidBar(d: map<string, Value>)
    requires forall k: Key :: BarFree(Field(d, k))
    ensures forall i :: 0 <= i < |Parts(d)| ==> '|' !in Parts(d)[i]
  {
    var f := EntryFn(d);
    forall k, x | k in ReqKeys && x in f(k)
      ensures '|' !in x
    {
      assert f(k) == EntryOf(d, k);
      KeyNameAvoids(k);
    }
    CollectAvoids(ReqKeys, f, '|');
    forall i | 0 <= i < |Parts(d)|
      ensures '|' !in Parts(d)[i]
    {
      if i > 0 {
        assert Parts(d)[i] in Collect(ReqKeys, f);
      }
    }
  }
}
