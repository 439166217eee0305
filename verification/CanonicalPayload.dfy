/**
The canonical form of a request payload, before it is hashed: normalization to a pure JSON
tree, then compact JSON text with sorted keys. Two payloads have the same text exactly when
their normalized trees are the same up to the order of object keys.
*/
module CanonicalPayload {
  import opened Common
  import opened JsonText

  // ---- normalization ----

  // Assignment to a key of a dict: an equal key keeps its place and takes the new value.
  function Put(ms: seq<Member>, m: Member): seq<Member> {
    if ms == [] then [m]
    else if ms[0].key == m.key then [m] + ms[1..]
    else [ms[0]] + Put(ms[1..], m)
  }

  function Normalize(v: Value): Value
    decreases v
  {
    match v
    case Model(d) => Normalize(d)
    case Dict(ms) => Dict(NormalizeMembers([], ms))
    case List(items) => List(NormalizeItems(items))
    case Tuple(items) => List(NormalizeItems(items))
    case DateTime(iso) => Str(iso)
    case Uuid(hex) => Str(hex)
    case _ => v
  }

  function NormalizeItems(items: seq<Value>): (r: seq<Value>)
    ensures |r| == |items|
    decreases items
  {
    if items == [] then [] else [Normalize(items[0])] + NormalizeItems(items[1..])
  }

  function NormalizeMember(m: Member): Member
    decreases m
  {
    Member(Key(m.key.text, true), Normalize(m.value))
  }

  // {str(k): normalize(v) for k, v in items}, built into done: keys that render alike collide
  // and the last one wins.
  function NormalizeMembers(done: seq<Member>, ms: seq<Member>): seq<Member>
    decreases ms
  {
    if ms == [] then done else NormalizeMembers(Put(done, NormalizeMember(ms[0])), ms[1..])
  }

  function Keys(ms: seq<Member>): set<Key> {
    if ms == [] then {} else {ms[0].key} + Keys(ms[1..])
  }

  predicate UniqueKeys(ms: seq<Member>) {
    ms == [] || (ms[0].key !in Keys(ms[1..]) && UniqueKeys(ms[1..]))
  }

  // A JSON tree whose objects have string keys, each once, and whose numbers are numbers.
  predicate Normal(v: Value)
    decreases v
  {
    match v
    case Num(t) => NumberToken(t)
    case List(items) => NormalItems(items)
    case Dict(ms) => UniqueKeys(ms) && NormalMembers(ms)
    case Tuple(_) => false
    case DateTime(_) => false
    case Uuid(_) => false
    case Model(_) => false
    case _ => true
  }

  predicate NormalItems(items: seq<Value>)
    decreases items
  {
    items == [] || (Normal(items[0]) && NormalItems(items[1..]))
  }

  predicate NormalMember(m: Member)
    decreases m
  {
    m.key.isString && Normal(m.value)
  }

  predicate NormalMembers(ms: seq<Member>)
    decreases ms
  {
    ms == [] || (NormalMember(ms[0]) && NormalMembers(ms[1..]))
  }

  lemma {:induction false} PutKeys(ms: seq<Member>, m: Member)
    ensures Keys(Put(ms, m)) == Keys(ms) + {m.key}
    ensures UniqueKeys(ms) ==> UniqueKeys(Put(ms, m))
    ensures NormalMembers(ms) && NormalMember(m) ==> NormalMembers(Put(ms, m))
    ensures m.key !in Keys(ms) ==> Put(ms, m) == ms + [m]
    decreases |ms|
  {
    if ms != [] {
      if ms[0].key == m.key {
        assert ([m] + ms[1..])[1..] == ms[1..];
      } else {
        PutKeys(ms[1..], m);
        assert ([ms[0]] + Put(ms[1..], m))[1..] == Put(ms[1..], m);
        assert [ms[0]] + (ms[1..] + [m]) == ms + [m];
      }
    }
  }

  /** Normalization yields a JSON tree with unique string keys, whatever the payload is made of. */
  lemma {:induction false} NormalizeNormal(v: Value)
    requires Printable(v)
    ensures Normal(Normalize(v))
    decreases v
  {
    match v
    case Model(d) => NormalizeNormal(d);
    case Dict(ms) => NormalizeMembersNormal([], ms);
    case List(items) => NormalizeItemsNormal(items);
    case Tuple(items) => NormalizeItemsNormal(items);
    case _ =>
  }

  lemma {:induction false} NormalizeItemsNormal(items: seq<Value>)
    requires forall i :: 0 <= i < |items| ==> Printable(items[i])
    ensures NormalItems(NormalizeItems(items))
    decreases items
  {
    if items != [] {
      NormalizeNormal(items[0]);
      NormalizeItemsNormal(items[1..]);
    }
  }

  lemma {:induction false} NormalizeMemberNormal(m: Member)
    requires Printable(m.value)
    ensures NormalMember(NormalizeMember(m))
    decreases m
  {
    NormalizeNormal(m.value);
  }

  lemma {:induction false} NormalizeMembersNormal(done: seq<Member>, ms: seq<Member>)
    requires UniqueKeys(done) && NormalMembers(done) && forall i :: 0 <= i < |ms| ==> Printable(ms[i].value)
    ensures UniqueKeys(NormalizeMembers(done, ms)) && NormalMembers(NormalizeMembers(done, ms))
    decreases ms
  {
    if ms != [] {
      NormalizeMemberNormal(ms[0]);
      PutKeys(done, NormalizeMember(ms[0]));
      NormalizeMembersNormal(Put(done, NormalizeMember(ms[0])), ms[1..]);
    }
  }

  /** On a JSON tree with unique string keys normalization changes nothing. */
  lemma {:induction false} NormalFixed(v: Value)
    requires Normal(v)
    ensures Normalize(v) == v
    decreases v
  {
    match v
    case List(items) => NormalItemsFixed(items);
    case Dict(ms) =>
      NormalMembersFixed([], ms);
      assert [] + ms == ms;
    case _ =>
  }

  lemma {:induction false} NormalItemsFixed(items: seq<Value>)
    requires NormalItems(items)
    ensures NormalizeItems(items) == items
    decreases items
  {
    if items != [] {
      NormalFixed(items[0]);
      NormalItemsFixed(items[1..]);
    }
  }

  lemma {:induction false} NormalMemberFixed(m: Member)
    requires NormalMember(m)
    ensures NormalizeMember(m) == m
    decreases m
  {
    NormalFixed(m.value);
  }

  lemma {:induction false} NormalMembersFixed(done: seq<Member>, ms: seq<Member>)
    requires NormalMembers(ms) && UniqueKeys(ms) && Keys(done) !! Keys(ms)
    ensures NormalizeMembers(done, ms) == done + ms
    decreases ms
  {
    if ms == [] {
      assert done + ms == done;
    } else {
      NormalMemberFixed(ms[0]);
      PutKeys(done, ms[0]);
      NormalMembersFixed(done + [ms[0]], ms[1..]);
      assert (done + [ms[0]]) + ms[1..] == done + ms;
    }
  }

  /** Normalizing twice changes nothing. */
  lemma NormalizeIdempotent(v: Value)
    requires Printable(v)
    ensures Normalize(Normalize(v)) == Normalize(v)
  {
    NormalizeNormal(v);
    NormalFixed(Normalize(v));
  }

  // ---- sorting ----

  // Code point order on strings.
  predicate Less(a: string, b: string) {
    b != [] && (a == [] || a[0] < b[0] || (a[0] == b[0] && Less(a[1..], b[1..])))
  }

  // They agree on the first n characters, after which a ends or has the smaller one.
  predicate LessFrom(a: string, b: string, n: nat) {
    && n <= |a| && n < |b| && a[..n] == b[..n] && (n == |a| || a[n] < b[n])
  }

  /** It is the lexicographic order. */
  lemma {:induction false} LessLexicographic(a: string, b: string)
    ensures Less(a, b) <==> exists n: nat :: LessFrom(a, b, n)
    decreases |a|
  {
    forall n: nat | n > 0 && LessFrom(a, b, n) ensures a != [] && b != [] && a[0] == b[0] {
      assert a[..n][0] == b[..n][0];
    }
    if a == [] || b == [] || a[0] != b[0] {
      if Less(a, b) { assert LessFrom(a, b, 0); }
    } else {
      LessLexicographic(a[1..], b[1..]);
      if n: nat :| LessFrom(a[1..], b[1..], n) {
        assert a[..n + 1] == [a[0]] + a[1..][..n] && b[..n + 1] == [b[0]] + b[1..][..n];
        assert LessFrom(a, b, n + 1);
      }
      if n: nat :| LessFrom(a, b, n) {
        assert a[1..][..n - 1] == a[..n][1..] && b[1..][..n - 1] == b[..n][1..];
        assert LessFrom(a[1..], b[1..], n - 1);
      }
    }
  }

  lemma {:induction false} LessTotal(a: string, b: string)
    ensures a == b || Less(a, b) || Less(b, a)
    ensures !(Less(a, b) && Less(b, a)) && !Less(a, a)
    decreases |a|
  {
    if a != [] {
      LessTotal(a[1..], if b == [] then [] else b[1..]);
      if b != [] && a[0] == b[0] {
        assert a == [a[0]] + a[1..] && b == [b[0]] + b[1..];
      }
    }
  }

  lemma {:induction false} LessTransitive(a: string, b: string, c: string)
    requires Less(a, b) && Less(b, c)
    ensures Less(a, c)
    decreases |a|
  {
    if a != [] && a[0] == b[0] == c[0] {
      LessTransitive(a[1..], b[1..], c[1..]);
    }
  }

  function Insert(m: Member, ms: seq<Member>): seq<Member> {
    if ms == [] || Less(m.key.text, ms[0].key.text) then [m] + ms else [ms[0]] + Insert(m, ms[1..])
  }

  function Sort(ms: seq<Member>): seq<Member> {
    if ms == [] then [] else Insert(ms[0], Sort(ms[1..]))
  }

  predicate Sorted(ms: seq<Member>) {
    |ms| < 2 || (Less(ms[0].key.text, ms[1].key.text) && Sorted(ms[1..]))
  }

  lemma {:induction false} InsertMultiset(m: Member, ms: seq<Member>)
    ensures multiset(Insert(m, ms)) == multiset(ms) + multiset{m}
    decreases |ms|
  {
    if ms != [] && !Less(m.key.text, ms[0].key.text) {
      InsertMultiset(m, ms[1..]);
      assert ms == [ms[0]] + ms[1..];
    }
  }

  lemma {:induction false} InsertSorted(m: Member, ms: seq<Member>)
    requires Sorted(ms) && NormalMembers(ms) && NormalMember(m) && m.key !in Keys(ms)
    ensures Sorted(Insert(m, ms)) && NormalMembers(Insert(m, ms)) && Keys(Insert(m, ms)) == Keys(ms) + {m.key}
    ensures Insert(m, ms) != [] && (Insert(m, ms)[0] == m || (ms != [] && Insert(m, ms)[0] == ms[0]))
    decreases |ms|
  {
    if ms == [] || Less(m.key.text, ms[0].key.text) {
      ConsSorted(m, ms);
    } else {
      LessTotal(m.key.text, ms[0].key.text);
      InsertSorted(m, ms[1..]);
      ConsSorted(ms[0], Insert(m, ms[1..]));
    }
  }

  lemma ConsSorted(m: Member, rest: seq<Member>)
    requires Sorted(rest) && NormalMembers(rest) && NormalMember(m) && (rest == [] || Less(m.key.text, rest[0].key.text))
    ensures Sorted([m] + rest) && NormalMembers([m] + rest) && Keys([m] + rest) == {m.key} + Keys(rest)
  {
    assert ([m] + rest)[1..] == rest;
  }

  lemma {:induction false} SortSorts(ms: seq<Member>)
    requires UniqueKeys(ms) && NormalMembers(ms)
    ensures Sorted(Sort(ms)) && NormalMembers(Sort(ms)) && Keys(Sort(ms)) == Keys(ms) && multiset(Sort(ms)) == multiset(ms)
    decreases |ms|
  {
    if ms != [] {
      SortSorts(ms[1..]);
      InsertSorted(ms[0], Sort(ms[1..]));
      InsertMultiset(ms[0], Sort(ms[1..]));
      assert ms == [ms[0]] + ms[1..];
    }
  }

  lemma {:induction false} HeadIsLeast(ms: seq<Member>, m: Member)
    requires Sorted(ms) && m in ms && m != ms[0]
    ensures Less(ms[0].key.text, m.key.text)
    decreases |ms|
  {
    assert m in ms[1..];
    if m != ms[1] {
      HeadIsLeast(ms[1..], m);
      LessTransitive(ms[0].key.text, ms[1].key.text, m.key.text);
    }
  }

  /** A set of members has only one sorted listing. */
  lemma {:induction false} SortedUnique(a: seq<Member>, b: seq<Member>)
    requires Sorted(a) && Sorted(b) && multiset(a) == multiset(b)
    ensures a == b
    decreases |a|
  {
    if a == [] {
      assert |multiset(b)| == 0;
    } else {
      assert a[0] in multiset(b) && |multiset(a)| == |multiset(b)|;
      assert b[0] in multiset(a);
      if a[0] != b[0] {
        HeadIsLeast(a, b[0]);
        HeadIsLeast(b, a[0]);
        LessTotal(a[0].key.text, b[0].key.text);
      }
      TailMultiset(a);
      TailMultiset(b);
      SortedUnique(a[1..], b[1..]);
      assert a == [a[0]] + a[1..] && b == [b[0]] + b[1..];
    }
  }

  lemma TailMultiset(a: seq<Member>)
    requires a != []
    ensures multiset(a[1..]) == multiset(a) - multiset{a[0]}
  {
    assert a == [a[0]] + a[1..];
  }

  // ---- the canonical text ----

  // Objects with their members in key order, at every level.
  function Canon(v: Value): Value
    decreases v
  {
    match v
    case List(items) => List(CanonItems(items))
    case Dict(ms) => Dict(Sort(CanonMembers(ms)))
    case _ => v
  }

  function CanonItems(items: seq<Value>): (r: seq<Value>)
    ensures |r| == |items|
    decreases items
  {
    if items == [] then [] else [Canon(items[0])] + CanonItems(items[1..])
  }

  function CanonMember(m: Member): Member
    decreases m
  {
    Member(m.key, Canon(m.value))
  }

  function CanonMembers(ms: seq<Member>): (r: seq<Member>)
    ensures |r| == |ms| && Keys(r) == Keys(ms) && (UniqueKeys(ms) ==> UniqueKeys(r))
    ensures forall i :: 0 <= i < |ms| ==> r[i] == CanonMember(ms[i])
    decreases ms
  {
    if ms == [] then [] else [CanonMember(ms[0])] + CanonMembers(ms[1..])
  }

  lemma {:induction false} CanonNormal(v: Value)
    requires Normal(v)
    ensures Normal(Canon(v))
    decreases v
  {
    match v
    case List(items) => CanonItemsNormal(items);
    case Dict(ms) =>
      CanonMembersNormal(ms);
      SortSorts(CanonMembers(ms));
      SortedHasUniqueKeys(Sort(CanonMembers(ms)));
    case _ =>
  }

  lemma {:induction false} CanonItemsNormal(items: seq<Value>)
    requires NormalItems(items)
    ensures NormalItems(CanonItems(items))
    decreases items
  {
    if items != [] {
      CanonNormal(items[0]);
      CanonItemsNormal(items[1..]);
    }
  }

  lemma {:induction false} CanonMemberNormal(m: Member)
    requires NormalMember(m)
    ensures NormalMember(CanonMember(m))
    decreases m
  {
    CanonNormal(m.value);
  }

  lemma {:induction false} CanonMembersNormal(ms: seq<Member>)
    requires NormalMembers(ms)
    ensures NormalMembers(CanonMembers(ms))
    decreases ms
  {
    if ms != [] {
      CanonMemberNormal(ms[0]);
      CanonMembersNormal(ms[1..]);
      assert CanonMembers(ms)[1..] == CanonMembers(ms[1..]);
    }
  }

  lemma {:induction false} KeyHasIndex(ms: seq<Member>, k: Key)
    ensures k in Keys(ms) <==> exists i :: 0 <= i < |ms| && ms[i].key == k
    decreases |ms|
  {
    if ms != [] {
      KeyHasIndex(ms[1..], k);
      assert forall i :: 0 < i < |ms| ==> ms[i] == ms[1..][i - 1];
    }
  }

  lemma {:induction false} SortedHasUniqueKeys(ms: seq<Member>)
    requires Sorted(ms) && NormalMembers(ms)
    ensures UniqueKeys(ms)
    decreases |ms|
  {
    if ms != [] {
      SortedHasUniqueKeys(ms[1..]);
      KeyHasIndex(ms[1..], ms[0].key);
      if i :| 0 <= i < |ms[1..]| && ms[1..][i].key == ms[0].key {
        LessTotal(ms[0].key.text, ms[0].key.text);
        FirstBelowRest(ms, i + 1);
      }
    }
  }

  lemma {:induction false} FirstBelowRest(ms: seq<Member>, i: nat)
    requires Sorted(ms) && 0 < i < |ms|
    ensures Less(ms[0].key.text, ms[i].key.text)
    decreases i
  {
    if i > 1 {
      FirstBelowRest(ms[1..], i - 1);
      LessTransitive(ms[0].key.text, ms[1].key.text, ms[i].key.text);
    }
  }

  lemma {:induction false} NormalPlain(v: Value)
    requires Normal(v)
    ensures Plain(v) && Printable(v)
    decreases v
  {
    match v
    case List(items) => NormalItemsPlain(items);
    case Dict(ms) => NormalMembersPlain(ms);
    case _ =>
  }

  lemma {:induction false} NormalItemsPlain(items: seq<Value>)
    requires NormalItems(items)
    ensures forall i :: 0 <= i < |items| ==> Plain(items[i]) && Printable(items[i])
    decreases items
  {
    if items != [] {
      NormalPlain(items[0]);
      NormalItemsPlain(items[1..]);
      assert forall i :: 0 < i < |items| ==> items[i] == items[1..][i - 1];
    }
  }

  lemma {:induction false} NormalMemberPlain(m: Member)
    requires NormalMember(m)
    ensures Plain(m.value) && Printable(m.value)
    decreases m
  {
    NormalPlain(m.value);
  }

  lemma {:induction false} NormalMembersPlain(ms: seq<Member>)
    requires NormalMembers(ms)
    ensures forall i :: 0 <= i < |ms| ==> ms[i].key.isString && Plain(ms[i].value) && Printable(ms[i].value)
    decreases ms
  {
    if ms != [] {
      NormalMemberPlain(ms[0]);
      NormalMembersPlain(ms[1..]);
      assert forall i :: 0 < i < |ms| ==> ms[i] == ms[1..][i - 1];
    }
  }

  // What canonical_request_hash feeds to SHA-256.
  function CanonicalText(v: Value): string
    requires Printable(v)
  {
    NormalizeNormal(v);
    CanonNormal(Normalize(v));
    NormalPlain(Canon(Normalize(v)));
    Print(Canon(Normalize(v)))
  }

  // ---- equality up to key order ----

  predicate SameTree(v: Value, w: Value)
    decreases v
  {
    match v
    case List(items) => w.List? && SameItems(items, w.items)
    case Dict(ms) =>
      && w.Dict? && Keys(ms) == Keys(w.members)
      && SameMembers(ms, w.members)
    case _ => v == w
  }

  predicate SameItems(a: seq<Value>, b: seq<Value>)
    decreases a
  {
    |a| == |b| && (a == [] || (SameTree(a[0], b[0]) && SameItems(a[1..], b[1..])))
  }

  // Values under the same key are the same.
  predicate SameMembers(a: seq<Member>, b: seq<Member>)
    decreases a
  {
    a == [] || ((forall j :: 0 <= j < |b| ==> SameMember(a[0], b[j])) && SameMembers(a[1..], b))
  }

  predicate SameMember(m: Member, n: Member)
    decreases m
  {
    m.key == n.key ==> SameTree(m.value, n.value)
  }

  lemma {:induction false} CanonSame(v: Value, w: Value)
    requires Normal(v) && Normal(w)
    ensures Canon(v) == Canon(w) <==> SameTree(v, w)
    decreases v
  {
    match v
    case List(items) => if w.List? { CanonSameItems(items, w.items); }
    case Dict(ms) => if w.Dict? { CanonSameDicts(ms, w.members); }
    case _ =>
  }

  lemma {:induction false} CanonSameItems(a: seq<Value>, b: seq<Value>)
    requires NormalItems(a) && NormalItems(b)
    ensures CanonItems(a) == CanonItems(b) <==> SameItems(a, b)
    decreases a
  {
    if |a| == |b| && a != [] {
      CanonSame(a[0], b[0]);
      CanonSameItems(a[1..], b[1..]);
      var p, q := CanonItems(a), CanonItems(b);
      assert p[1..] == CanonItems(a[1..]) && q[1..] == CanonItems(b[1..]);
      assert p == [p[0]] + p[1..] && q == [q[0]] + q[1..];
    }
  }

  lemma {:induction false} CanonSameMember(m: Member, n: Member)
    requires NormalMember(m) && NormalMember(n)
    ensures SameMember(m, n) <==> (m.key == n.key ==> CanonMember(m) == CanonMember(n))
    decreases m
  {
    CanonSame(m.value, n.value);
  }

  lemma {:induction false} NormalAt(ms: seq<Member>, j: nat)
    requires NormalMembers(ms) && j < |ms|
    ensures NormalMember(ms[j])
    decreases j
  {
    if j > 0 { NormalAt(ms[1..], j - 1); }
  }

  // Members with the same key are the same member.
  ghost predicate EqualUnderKeys(p: seq<Member>, q: seq<Member>) {
    forall i, j :: 0 <= i < |p| && 0 <= j < |q| && p[i].key == q[j].key ==> p[i] == q[j]
  }

  lemma {:induction false} CanonSameMembers(a: seq<Member>, b: seq<Member>)
    requires NormalMembers(a) && NormalMembers(b)
    ensures SameMembers(a, b) <==> EqualUnderKeys(CanonMembers(a), CanonMembers(b))
    decreases a, 0
  {
    if a != [] {
      forall j | 0 <= j < |b|
        ensures SameMember(a[0], b[j]) <==> (a[0].key == b[j].key ==> CanonMembers(a)[0] == CanonMembers(b)[j])
      {
        NormalAt(b, j);
        CanonSameMember(a[0], b[j]);
      }
      CanonSameMembers(a[1..], b);
      assert CanonMembers(a)[1..] == CanonMembers(a[1..]);
      assert forall i :: 0 < i < |a| ==> a[i] == a[1..][i - 1] && CanonMembers(a)[i] == CanonMembers(a[1..])[i - 1];
    }
  }

  lemma {:induction false} OnceEach(ms: seq<Member>, m: Member)
    requires UniqueKeys(ms)
    ensures multiset(ms)[m] == if m in ms then 1 else 0
    decreases |ms|
  {
    if ms != [] {
      OnceEach(ms[1..], m);
      KeyHasIndex(ms[1..], ms[0].key);
      assert ms == [ms[0]] + ms[1..];
      assert forall i :: 0 <= i < |ms[1..]| ==> ms[1..][i].key != ms[0].key;
    }
  }

  lemma {:induction false} SameKeySameIndex(ms: seq<Member>, i: nat, j: nat)
    requires UniqueKeys(ms) && i < |ms| && j < |ms| && ms[i].key == ms[j].key
    ensures i == j
    decreases |ms|
  {
    KeyHasIndex(ms[1..], ms[0].key);
    if i > 0 { assert ms[1..][i - 1] == ms[i]; }
    if j > 0 { assert ms[1..][j - 1] == ms[j]; }
    if i > 0 && j > 0 { SameKeySameIndex(ms[1..], i - 1, j - 1); }
  }

  // Two member lists with unique keys hold the same members exactly when they have the same
  // keys and equal keys carry equal members.
  lemma SameMembership(p: seq<Member>, q: seq<Member>)
    requires UniqueKeys(p) && UniqueKeys(q)
    ensures multiset(p) == multiset(q) <==>
              Keys(p) == Keys(q) && EqualUnderKeys(p, q)
  {
    if Keys(p) == Keys(q) && EqualUnderKeys(p, q) {
      forall m ensures multiset(p)[m] == multiset(q)[m] {
        OnceEach(p, m);
        OnceEach(q, m);
        KeyHasIndex(p, m.key);
        KeyHasIndex(q, m.key);
      }
    }
    if multiset(p) == multiset(q) {
      forall i, j | 0 <= i < |p| && 0 <= j < |q| && p[i].key == q[j].key ensures p[i] == q[j] {
        assert p[i] in multiset(q);
        var k :| 0 <= k < |q| && q[k] == p[i];
        SameKeySameIndex(q, k, j);
      }
      SameKeys(p, q);
      SameKeys(q, p);
    }
  }

  lemma SameKeys(p: seq<Member>, q: seq<Member>)
    requires multiset(p) == multiset(q)
    ensures Keys(p) <= Keys(q)
  {
    forall k | k in Keys(p) ensures k in Keys(q) {
      KeyHasIndex(p, k);
      KeyHasIndex(q, k);
      var i :| 0 <= i < |p| && p[i].key == k;
      assert p[i] in multiset(q);
    }
  }

  lemma SortsAgree(p: seq<Member>, q: seq<Member>)
    requires UniqueKeys(p) && UniqueKeys(q) && NormalMembers(p) && NormalMembers(q)
    ensures Sort(p) == Sort(q) <==> multiset(p) == multiset(q)
  {
    SortSorts(p);
    SortSorts(q);
    if multiset(p) == multiset(q) { SortedUnique(Sort(p), Sort(q)); }
  }

  lemma {:induction false} CanonSameDicts(a: seq<Member>, b: seq<Member>)
    requires Normal(Dict(a)) && Normal(Dict(b))
    ensures Canon(Dict(a)) == Canon(Dict(b)) <==> SameTree(Dict(a), Dict(b))
    decreases a, 1
  {
    var p, q := CanonMembers(a), CanonMembers(b);
    CanonMembersNormal(a);
    CanonMembersNormal(b);
    SortsAgree(p, q);
    SameMembership(p, q);
    CanonSameMembers(a, b);
    assert SameTree(Dict(a), Dict(b)) <==> Keys(a) == Keys(b) && SameMembers(a, b);
  }

  /** The canonical text is injective up to key order: two payloads have the same text exactly
      when their normalized trees differ only in the order of object keys. */
  lemma CanonicalTextInjective(v: Value, w: Value)
    requires Printable(v) && Printable(w)
    ensures CanonicalText(v) == CanonicalText(w) <==> SameTree(Normalize(v), Normalize(w))
  {
    var a, b := Canon(Normalize(v)), Canon(Normalize(w));
    NormalizeNormal(v);
    NormalizeNormal(w);
    CanonNormal(Normalize(v));
    CanonNormal(Normalize(w));
    NormalPlain(a);
    NormalPlain(b);
    if Print(a) == Print(b) {
      assert Print(a) + [] == Print(b) + [];
      PrintUnique(a, b, [], []);
    }
    CanonSame(Normalize(v), Normalize(w));
  }

  /** On JSON trees with unique string keys, logically equal and equally printed are the same
      thing. */
  lemma JsonTreesByText(v: Value, w: Value)
    requires Normal(v) && Normal(w)
    ensures Printable(v) && Printable(w)
    ensures CanonicalText(v) == CanonicalText(w) <==> SameTree(v, w)
  {
    NormalPlain(v);
    NormalPlain(w);
    NormalFixed(v);
    NormalFixed(w);
    CanonicalTextInjective(v, w);
  }

  predicate SameText(v: Value, w: Value) { Printable(v) && Printable(w) && CanonicalText(v) == CanonicalText(w) }

  lemma SameNormalFormSameText(v: Value, w: Value)
    requires Printable(v) && Printable(w) && Normalize(v) == Normalize(w)
    ensures SameText(v, w)
  {
  }

  // Dicts with one entry, and with two whose keys render alike.
  function One(k: string, isString: bool, v: Value): Value { Dict([Member(Key(k, isString), v)]) }
  function Both(k: string, v: Value, w: Value): Value { Dict([Member(Key(k, true), v), Member(Key(k, false), w)]) }

  lemma CollidingKeys(k: string, v: Value, w: Value)
    ensures Normalize(One(k, false, w)) == Normalize(One(k, true, w)) == Normalize(Both(k, v, w))
  {
    var one, text, first := Member(Key(k, false), w), Member(Key(k, true), w), Member(Key(k, true), v);
    var n, m, all := NormalizeMember(one), NormalizeMember(first), [first, one];
    assert NormalizeMembers([], [one]) == NormalizeMembers([n], [one][1..]) == [n];
    assert NormalizeMembers([], [text]) == NormalizeMembers([n], [text][1..]) == [n];
    assert all[1..] == [one] && [one][1..] == [];
    assert Put([m], n) == [n] + [] == [n];
    assert NormalizeMembers([], all) == NormalizeMembers([m], [one]) == NormalizeMembers([n], []) == [n];
  }

  lemma CollidingKeysSameText(k: string, v: Value, w: Value)
    requires Printable(v) && Printable(w)
    ensures SameText(One(k, false, w), One(k, true, w)) && SameText(Both(k, v, w), One(k, true, w))
  {
    CollidingKeys(k, v, w);
    SameNormalFormSameText(One(k, false, w), One(k, true, w));
    SameNormalFormSameText(Both(k, v, w), One(k, true, w));
  }

  /** Outside JSON trees distinct payloads share a text: a non-string key and its string form, a dict
      with both and one without the first of them, a tuple and a list, a UUID and its string form. */
  lemma DistinctPayloadsSameText(k: string, v: Value, w: Value, items: seq<Value>, h: string)
    requires Printable(v) && Printable(w) && Printable(List(items))
    ensures One(k, false, w) != One(k, true, w) && SameText(One(k, false, w), One(k, true, w))
    ensures Both(k, v, w) != One(k, true, w) && SameText(Both(k, v, w), One(k, true, w))
    ensures SameText(Tuple(items), List(items)) && SameText(Uuid(h), Str(h))
  {
    CollidingKeysSameText(k, v, w);
    SameNormalFormSameText(Tuple(items), List(items));
    SameNormalFormSameText(Uuid(h), Str(h));
  }
}
