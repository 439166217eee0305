/**
When two request payloads are the same content, said of the payloads as callers pass them: a model is
what it dumps, a tuple is a list, a datetime and a UUID are their strings, and a dict is the last
value under each key as it renders. Two payloads have the same canonical text exactly then.
*/
module PayloadEquality {
  import opened Common
  import opened JsonText
  import opened CanonicalPayload

  predicate Textual(v: Value) { v.Str? || v.DateTime? || v.Uuid? }

  function Text(v: Value): string
    requires Textual(v)
  {
    match v
    case Str(s) => s
    case DateTime(iso) => iso
    case Uuid(hex) => hex
  }

  predicate Listed(v: Value) { v.List? || v.Tuple? }

  // The last of its members under this key counts.
  predicate Counts(ms: seq<Member>, i: int) {
    0 <= i < |ms| && forall j :: i < j < |ms| ==> ms[j].key.text != ms[i].key.text
  }

  function Texts(ms: seq<Member>): set<string> { set i | 0 <= i < |ms| :: ms[i].key.text }

  ghost predicate SamePayload(v: Value, w: Value)
    decreases v, w
  {
    if v.Model? then SamePayload(v.dump, w)
    else if w.Model? then SamePayload(v, w.dump)
    else if Listed(v) then
      Listed(w) && |v.items| == |w.items| && forall i :: 0 <= i < |v.items| ==> SamePayload(v.items[i], w.items[i])
    else if v.Dict? then
      && w.Dict? && Texts(v.members) == Texts(w.members)
      && forall i, j :: Counts(v.members, i) && Counts(w.members, j) && v.members[i].key.text == w.members[j].key.text ==>
           SamePayload(v.members[i].value, w.members[j].value)
    else if Textual(v) then Textual(w) && Text(v) == Text(w)
    else v == w
  }

  // ---- lists ----

  lemma {:induction false} NormalizeItemsAt(items: seq<Value>, i: nat)
    requires i < |items|
    ensures NormalizeItems(items)[i] == Normalize(items[i])
    decreases i
  {
    if i > 0 { NormalizeItemsAt(items[1..], i - 1); }
  }

  lemma {:induction false} SameItemsAt(a: seq<Value>, b: seq<Value>)
    ensures SameItems(a, b) <==> |a| == |b| && forall i :: 0 <= i < |a| ==> SameTree(a[i], b[i])
    decreases |a|
  {
    if |a| == |b| && a != [] {
      SameItemsAt(a[1..], b[1..]);
      assert forall i :: 0 < i < |a| ==> a[i] == a[1..][i - 1] && b[i] == b[1..][i - 1];
      if forall i :: 0 <= i < |a[1..]| ==> SameTree(a[1..][i], b[1..][i]) {
        assert SameTree(a[0], b[0]) ==> forall i :: 0 <= i < |a| ==> SameTree(a[i], b[i]);
      } else {
        var i :| 0 <= i < |a[1..]| && !SameTree(a[1..][i], b[1..][i]);
        assert !SameTree(a[i + 1], b[i + 1]);
      }
    }
  }

  // ---- dicts ----

  lemma {:induction false} SameMembersAt(a: seq<Member>, b: seq<Member>)
    ensures SameMembers(a, b) <==> forall i, j :: 0 <= i < |a| && 0 <= j < |b| ==> SameMember(a[i], b[j])
    decreases |a|
  {
    if a != [] {
      SameMembersAt(a[1..], b);
      assert forall i :: 0 < i < |a| ==> a[i] == a[1..][i - 1];
      if !SameMembers(a[1..], b) {
        var i, j :| 0 <= i < |a[1..]| && 0 <= j < |b| && !SameMember(a[1..][i], b[j]);
        assert !SameMember(a[i + 1], b[j]);
      }
    }
  }

  lemma {:induction false} PutMembers(ms: seq<Member>, x: Member, m: Member)
    requires UniqueKeys(ms)
    ensures m in Put(ms, x) <==> m == x || (m in ms && m.key != x.key)
    decreases |ms|
  {
    if ms != [] {
      assert ms == [ms[0]] + ms[1..];
      KeyHasIndex(ms[1..], ms[0].key);
      if ms[0].key == x.key {
        assert m in ms[1..] ==> m.key in Keys(ms[1..]) by { KeyHasIndex(ms[1..], m.key); }
      } else {
        PutMembers(ms[1..], x, m);
      }
    }
  }

  // The member m stems from the i-th entry, which counts.
  predicate Stems(ms: seq<Member>, i: int, m: Member) { Counts(ms, i) && m == NormalizeMember(ms[i]) }

  lemma CountsTail(ms: seq<Member>, i: nat)
    requires ms != []
    ensures Counts(ms, i + 1) <==> Counts(ms[1..], i)
  {
    if i + 1 < |ms| {
      assert forall j :: i < j < |ms| - 1 ==> ms[1..][j] == ms[j + 1];
      if Counts(ms[1..], i) {
        forall j | i + 1 < j < |ms| ensures ms[j].key.text != ms[i + 1].key.text { assert ms[1..][j - 1] == ms[j]; }
      }
    }
  }

  // What normalization makes of a dict: under each rendered key the last value.
  lemma {:induction false} NormalizedMembers(done: seq<Member>, ms: seq<Member>, m: Member)
    requires UniqueKeys(done) && forall d :: d in done ==> d.key.isString
    ensures UniqueKeys(NormalizeMembers(done, ms))
    ensures m in NormalizeMembers(done, ms) <==> (exists i :: Stems(ms, i, m)) || (m in done && m.key.text !in Texts(ms))
    decreases |ms|
  {
    if ms != [] {
      var x := NormalizeMember(ms[0]);
      PutKeys(done, x);
      PutMembers(done, x, m);
      forall d | d in Put(done, x) ensures d.key.isString { PutMembers(done, x, d); }
      NormalizedMembers(Put(done, x), ms[1..], m);
      StemsOfTail(ms, m);
      TextsOfTail(ms);
    }
  }

  lemma TextsOfTail(ms: seq<Member>)
    requires ms != []
    ensures Texts(ms) == {ms[0].key.text} + Texts(ms[1..])
  {
    assert forall i :: 0 < i < |ms| ==> ms[i] == ms[1..][i - 1];
    forall t ensures t in Texts(ms) <==> t == ms[0].key.text || t in Texts(ms[1..]) {
      if t in Texts(ms[1..]) {
        var i :| 0 <= i < |ms[1..]| && ms[1..][i].key.text == t;
        assert ms[i + 1].key.text == t;
      }
    }
  }

  lemma StemsOfTail(ms: seq<Member>, m: Member)
    requires ms != []
    ensures (exists i :: Stems(ms, i, m)) <==>
              (exists i :: Stems(ms[1..], i, m)) || (m == NormalizeMember(ms[0]) && ms[0].key.text !in Texts(ms[1..]))
  {
    assert forall i :: 0 < i < |ms| ==> ms[i] == ms[1..][i - 1];
    assert Counts(ms, 0) <==> ms[0].key.text !in Texts(ms[1..]) by { FirstCounts(ms); }
    if i :| Stems(ms, i, m) {
      if i > 0 { CountsTail(ms, i - 1); assert Stems(ms[1..], i - 1, m); }
    }
    if i :| Stems(ms[1..], i, m) {
      CountsTail(ms, i);
      assert Stems(ms, i + 1, m);
    }
    if m == NormalizeMember(ms[0]) && Counts(ms, 0) { assert Stems(ms, 0, m); }
  }

  lemma FirstCounts(ms: seq<Member>)
    requires ms != []
    ensures Counts(ms, 0) <==> ms[0].key.text !in Texts(ms[1..])
  {
    if ms[0].key.text in Texts(ms[1..]) {
      var i :| 0 <= i < |ms[1..]| && ms[1..][i].key.text == ms[0].key.text;
      assert ms[i + 1].key.text == ms[0].key.text;
    } else {
      forall j | 0 < j < |ms| ensures ms[j].key.text != ms[0].key.text { assert ms[1..][j - 1].key.text in Texts(ms[1..]); }
    }
  }

  lemma {:induction false} SomeCounts(ms: seq<Member>, t: string) returns (i: nat)
    requires t in Texts(ms)
    ensures Counts(ms, i) && ms[i].key.text == t
    decreases |ms|
  {
    TextsOfTail(ms);
    if t in Texts(ms[1..]) {
      var k := SomeCounts(ms[1..], t);
      CountsTail(ms, k);
      i := k + 1;
    } else {
      FirstCounts(ms);
      i := 0;
    }
  }

  lemma KeysAreTexts(ms: seq<Member>, k: Key)
    ensures k in Keys(NormalizeMembers([], ms)) <==> k.isString && k.text in Texts(ms)
  {
    var r := NormalizeMembers([], ms);
    KeyHasIndex(r, k);
    if k in Keys(r) {
      var j :| 0 <= j < |r| && r[j].key == k;
      NormalizedMembers([], ms, r[j]);
      var i :| Stems(ms, i, r[j]);
    }
    if k.isString && k.text in Texts(ms) {
      var i := SomeCounts(ms, k.text);
      var m := NormalizeMember(ms[i]);
      NormalizedMembers([], ms, m);
      assert Stems(ms, i, m);
      var j :| 0 <= j < |r| && r[j] == m;
    }
  }

  // The values that count under each key are pairwise the same tree.
  ghost predicate SameValues(ms: seq<Member>, ns: seq<Member>) {
    forall i, j :: Counts(ms, i) && Counts(ns, j) && ms[i].key.text == ns[j].key.text ==> SameTree(Normalize(ms[i].value), Normalize(ns[j].value))
  }

  lemma MembersByValues(ms: seq<Member>, ns: seq<Member>)
    ensures SameMembers(NormalizeMembers([], ms), NormalizeMembers([], ns)) <==> SameValues(ms, ns)
  {
    var p, q := NormalizeMembers([], ms), NormalizeMembers([], ns);
    SameMembersAt(p, q);
    if SameMembers(p, q) {
      forall i, j | Counts(ms, i) && Counts(ns, j) && ms[i].key.text == ns[j].key.text
        ensures SameTree(Normalize(ms[i].value), Normalize(ns[j].value))
      {
        var m, n := NormalizeMember(ms[i]), NormalizeMember(ns[j]);
        assert Stems(ms, i, m) && Stems(ns, j, n);
        NormalizedMembers([], ms, m);
        NormalizedMembers([], ns, n);
        var a :| 0 <= a < |p| && p[a] == m;
        var b :| 0 <= b < |q| && q[b] == n;
        assert SameMember(p[a], q[b]);
      }
    }
    if SameValues(ms, ns) {
      forall a, b | 0 <= a < |p| && 0 <= b < |q| ensures SameMember(p[a], q[b]) {
        NormalizedMembers([], ms, p[a]);
        NormalizedMembers([], ns, q[b]);
        var i :| Stems(ms, i, p[a]);
        var j :| Stems(ns, j, q[b]);
      }
    }
  }

  lemma KeysByTexts(ms: seq<Member>, ns: seq<Member>)
    ensures Keys(NormalizeMembers([], ms)) == Keys(NormalizeMembers([], ns)) <==> Texts(ms) == Texts(ns)
  {
    var p, q := Keys(NormalizeMembers([], ms)), Keys(NormalizeMembers([], ns));
    forall k: Key ensures (k in p <==> k.isString && k.text in Texts(ms)) && (k in q <==> k.isString && k.text in Texts(ns)) {
      KeysAreTexts(ms, k);
      KeysAreTexts(ns, k);
    }
    if p == q {
      forall t ensures t in Texts(ms) <==> t in Texts(ns) { assert Key(t, true) in p <==> Key(t, true) in q; }
    }
  }

  lemma DictsByValues(ms: seq<Member>, ns: seq<Member>)
    ensures SameTree(Normalize(Dict(ms)), Normalize(Dict(ns))) <==> Texts(ms) == Texts(ns) && SameValues(ms, ns)
  {
    MembersByValues(ms, ns);
    KeysByTexts(ms, ns);
  }

  // ---- the two notions agree ----

  lemma {:induction false} TreesByPayload(v: Value, w: Value)
    ensures SameTree(Normalize(v), Normalize(w)) <==> SamePayload(v, w)
    decreases v, w
  {
    if v.Model? {
      TreesByPayload(v.dump, w);
    } else if w.Model? {
      TreesByPayload(v, w.dump);
    } else if Listed(v) && Listed(w) {
      ListsByPayload(v, w);
    } else if v.Dict? && w.Dict? {
      DictsByPayload(v, w);
    }
  }

  lemma {:induction false} ListsByPayload(v: Value, w: Value)
    requires Listed(v) && Listed(w)
    ensures SameTree(Normalize(v), Normalize(w)) <==> SamePayload(v, w)
    decreases v, w, 0
  {
    SameItemsAt(NormalizeItems(v.items), NormalizeItems(w.items));
    if |v.items| == |w.items| {
      forall i | 0 <= i < |v.items|
        ensures SameTree(NormalizeItems(v.items)[i], NormalizeItems(w.items)[i]) <==> SamePayload(v.items[i], w.items[i])
      {
        NormalizeItemsAt(v.items, i);
        NormalizeItemsAt(w.items, i);
        TreesByPayload(v.items[i], w.items[i]);
      }
    }
  }

  lemma {:induction false} DictsByPayload(v: Value, w: Value)
    requires v.Dict? && w.Dict?
    ensures SameTree(Normalize(v), Normalize(w)) <==> SamePayload(v, w)
    decreases v, w, 0
  {
    DictsByValues(v.members, w.members);
    forall i, j | Counts(v.members, i) && Counts(w.members, j) && v.members[i].key.text == w.members[j].key.text
      ensures SameTree(Normalize(v.members[i].value), Normalize(w.members[j].value)) <==> SamePayload(v.members[i].value, w.members[j].value)
    {
      TreesByPayload(v.members[i].value, w.members[j].value);
    }
  }

  /** Two payloads have the same canonical text, and so the same hash, exactly when they are the same
      content: whatever they are made of, models included. */
  lemma SameTextIffSamePayload(v: Value, w: Value)
    requires Printable(v) && Printable(w)
    ensures CanonicalText(v) == CanonicalText(w) <==> SamePayload(v, w)
  {
    CanonicalTextInjective(v, w);
    TreesByPayload(v, w);
  }
}
