/**
Request payloads, and the compact JSON text json.dumps prints for them (separators "," and
":", ensure_ascii=False). The main result is unique readability: a text determines the tree
it was printed from. Strings are escaped as in section 7 of RFC 8259.
*/
module JsonText {
  import opened Common

  // A dict key as str(k) renders it, remembering whether it was a string to begin with.
  datatype Key = Key(text: string, isString: bool)

  datatype Member = Member(key: Key, value: Value)

  // What a payload can be made of. Num carries the number's printed token.
  datatype Value =
    | Null
    | Bool(b: bool)
    | Num(token: string)
    | Str(s: string)
    | List(items: seq<Value>)
    | Dict(members: seq<Member>)
    | Tuple(items: seq<Value>)
    | DateTime(iso: string)
    | Uuid(hex: string)
    | Model(dump: Value)

  predicate NumberChar(c: char) {
    '0' <= c <= '9' || c in "+-.eEINaifnty"
  }

  // int and float reprs, NaN and the infinities included.
  predicate NumberToken(t: string) {
    && t != [] && ('0' <= t[0] <= '9' || t[0] in "-IN")
    && forall i :: 0 <= i < |t| ==> NumberChar(t[i])
  }

  // Every number carries a number token.
  predicate Printable(v: Value) {
    match v
    case Num(t) => NumberToken(t)
    case List(items) => forall i :: 0 <= i < |items| ==> Printable(items[i])
    case Tuple(items) => forall i :: 0 <= i < |items| ==> Printable(items[i])
    case Dict(ms) => forall i :: 0 <= i < |ms| ==> Printable(ms[i].value)
    case Model(d) => Printable(d)
    case _ => true
  }

  // A pure JSON tree: what normalization leaves, and what json.dumps accepts.
  predicate Plain(v: Value) {
    match v
    case List(items) => forall i :: 0 <= i < |items| ==> Plain(items[i])
    case Dict(ms) => forall i :: 0 <= i < |ms| ==> ms[i].key.isString && Plain(ms[i].value)
    case Tuple(_) => false
    case DateTime(_) => false
    case Uuid(_) => false
    case Model(_) => false
    case _ => true
  }

  // ---- printing ----

  function HexDigit(n: nat): char
    requires n < 16
  {
    "0123456789abcdef"[n]
  }

  function Escaped(c: char): string {
    if c == '"' then "\\\""
    else if c == '\\' then "\\\\"
    else if c == '\n' then "\\n"
    else if c == '\r' then "\\r"
    else if c == '\t' then "\\t"
    else if c as int == 12 then "\\f"
    else if c as int == 8 then "\\b"
    else if (c as int) < 32 then "\\u00" + [HexDigit(c as int / 16), HexDigit(c as int % 16)]
    else [c]
  }

  // The characters of a string literal after its opening quote, closing quote included.
  function Quoted(s: string): string {
    if s == [] then "\"" else Escaped(s[0]) + Quoted(s[1..])
  }

  function Print(v: Value): string
    requires Plain(v)
    decreases v
  {
    match v
    case Null => "null"
    case Bool(b) => if b then "true" else "false"
    case Num(t) => t
    case Str(s) => "\"" + Quoted(s)
    case List(items) => "[" + ItemsText("", items)
    case Dict(ms) => "{" + MembersText("", ms)
  }

  // The rest of a list: sep stands before the next item, "," from the second on.
  function ItemsText(sep: string, items: seq<Value>): string
    requires forall i :: 0 <= i < |items| ==> Plain(items[i])
    decreases items
  {
    if items == [] then "]" else sep + (Print(items[0]) + ItemsText(",", items[1..]))
  }

  function MemberText(m: Member): string
    requires Plain(m.value)
    decreases m
  {
    "\"" + (Quoted(m.key.text) + (":" + Print(m.value)))
  }

  function MembersText(sep: string, ms: seq<Member>): string
    requires forall i :: 0 <= i < |ms| ==> ms[i].key.isString && Plain(ms[i].value)
    decreases ms
  {
    if ms == [] then "}" else sep + (MemberText(ms[0]) + MembersText(",", ms[1..]))
  }

  // ---- unique readability ----

  lemma EscapedPrefixFree(c: char, d: char, x: string, y: string)
    requires Escaped(c) + x == Escaped(d) + y
    ensures c == d && x == y
  {
    var e, f := Escaped(c), Escaped(d);
    assert (e + x)[0] == (f + y)[0];
    if |e| >= 2 {
      assert (e + x)[1] == (f + y)[1];
    }
    if |e| == 6 {
      assert (e + x)[4] == (f + y)[4] && (e + x)[5] == (f + y)[5];
      HexDistinct(c as int / 16, d as int / 16);
      HexDistinct(c as int % 16, d as int % 16);
    }
    assert e == f;
    assert (e + x)[|e|..] == x && (f + y)[|f|..] == y;
  }

  lemma HexDistinct(m: nat, n: nat)
    requires m < 16 && n < 16
    ensures HexDigit(m) == HexDigit(n) ==> m == n
  {
  }

  lemma EscapedNotQuote(c: char)
    ensures Escaped(c) != [] && Escaped(c)[0] != '"'
  {
  }

  lemma QuotedFirst(s: string, x: string)
    ensures Quoted(s) != [] && ((Quoted(s) + x)[0] == '"' <==> s == [])
  {
    if s != [] { EscapedNotQuote(s[0]); }
  }

  lemma QuotedShape(s: string, x: string)
    requires s != []
    ensures Quoted(s) + x == Escaped(s[0]) + (Quoted(s[1..]) + x)
  {
  }

  lemma {:induction false} QuotedUnique(s: string, t: string, x: string, y: string)
    requires Quoted(s) + x == Quoted(t) + y
    ensures s == t && x == y
    decreases |s|
  {
    QuotedFirst(s, x);
    QuotedFirst(t, y);
    if s == [] {
      Unprefixed("\"", x, y);
    } else {
      QuotedShape(s, x);
      QuotedShape(t, y);
      EscapedPrefixFree(s[0], t[0], Quoted(s[1..]) + x, Quoted(t[1..]) + y);
      QuotedUnique(s[1..], t[1..], x, y);
      assert s == [s[0]] + s[1..] && t == [t[0]] + t[1..];
    }
  }

  lemma Unprefixed(c: string, x: string, y: string)
    requires c + x == c + y
    ensures x == y
  {
    assert (c + x)[|c|..] == x && (c + y)[|c|..] == y;
  }

  // What can follow a value.
  predicate Delimited(x: string) {
    x == [] || x[0] in ",]}"
  }

  // How far the number characters at the front of a text reach.
  function Span(u: string): nat {
    if u == [] || !NumberChar(u[0]) then 0 else 1 + Span(u[1..])
  }

  lemma {:induction false} SpanOfToken(s: string, x: string)
    requires Delimited(x) && forall i :: 0 <= i < |s| ==> NumberChar(s[i])
    ensures Span(s + x) == |s|
    decreases |s|
  {
    if s == [] {
      assert s + x == x;
    } else {
      assert (s + x)[1..] == s[1..] + x;
      SpanOfToken(s[1..], x);
    }
  }

  lemma TokenUnique(s: string, t: string, x: string, y: string)
    requires forall i :: 0 <= i < |s| ==> NumberChar(s[i])
    requires forall i :: 0 <= i < |t| ==> NumberChar(t[i])
    requires Delimited(x) && Delimited(y) && s + x == t + y
    ensures s == t && x == y
  {
    SpanOfToken(s, x);
    SpanOfToken(t, y);
    assert (s + x)[..|s|] == s && (t + y)[..|t|] == t;
    Unprefixed(s, x, y);
  }

  // The first character of a text tells the kind of value.
  function Kind(v: Value): char
    requires Plain(v)
  {
    match v
    case Null => 'n'
    case Bool(b) => if b then 't' else 'f'
    case Num(_) => '0'
    case Str(_) => '"'
    case List(_) => '['
    case Dict(_) => '{'
  }

  function KindOf(c: char): char {
    if c in "ntf\"[{" then c else '0'
  }

  lemma FirstCharTellsKind(v: Value, x: string)
    requires Plain(v) && Printable(v)
    ensures Print(v) != [] && KindOf((Print(v) + x)[0]) == Kind(v)
  {
  }

  // How the text of a compound value continues after its first character.
  function Body(v: Value): string
    requires Plain(v) && (v.Str? || v.List? || v.Dict?)
  {
    match v
    case Str(s) => Quoted(s)
    case List(items) => ItemsText("", items)
    case Dict(ms) => MembersText("", ms)
  }

  lemma BodyShape(v: Value, x: string)
    requires Plain(v) && (v.Str? || v.List? || v.Dict?)
    ensures Print(v) + x == [Kind(v)] + (Body(v) + x)
  {
  }

  /** Unique readability: if two texts followed by delimiters agree, the trees agree, and so
      does what follows them. */
  lemma {:induction false} PrintUnique(a: Value, b: Value, x: string, y: string)
    requires Plain(a) && Plain(b) && Printable(a) && Printable(b)
    requires Delimited(x) && Delimited(y) && Print(a) + x == Print(b) + y
    ensures a == b && x == y
    decreases a, 1
  {
    FirstCharTellsKind(a, x);
    FirstCharTellsKind(b, y);
    if a.Str? || a.List? || a.Dict? {
      BodyShape(a, x);
      BodyShape(b, y);
      Unprefixed([Kind(a)], Body(a) + x, Body(b) + y);
      BodyUnique(a, b, x, y);
    } else if a.Num? {
      TokenUnique(a.token, b.token, x, y);
    } else {
      Unprefixed(Print(a), x, y);
    }
  }

  lemma {:induction false} BodyUnique(a: Value, b: Value, x: string, y: string)
    requires Plain(a) && Plain(b) && Printable(a) && Printable(b)
    requires (a.Str? && b.Str?) || (a.List? && b.List?) || (a.Dict? && b.Dict?)
    requires Body(a) + x == Body(b) + y
    ensures a == b && x == y
    decreases a, 0
  {
    match a
    case Str(s) => QuotedUnique(s, b.s, x, y);
    case List(items) => ItemsUnique("", items, b.items, x, y);
    case Dict(ms) => MembersUnique("", ms, b.members, x, y);
  }

  lemma ItemsFirst(sep: string, items: seq<Value>, x: string)
    requires Plain(List(items)) && Printable(List(items)) && (sep == "" || sep == ",")
    ensures ItemsText(sep, items) != []
    ensures items == [] <==> (ItemsText(sep, items) + x)[0] == ']'
    ensures sep == "," ==> Delimited(ItemsText(sep, items) + x)
  {
    if items != [] {
      var rest := ItemsText(",", items[1..]);
      FirstCharTellsKind(items[0], rest);
      assert ItemsText("", items) == Print(items[0]) + rest;
    }
  }

  lemma ItemsShape(sep: string, items: seq<Value>, x: string)
    requires Plain(List(items)) && items != []
    ensures Plain(items[0]) && Plain(List(items[1..]))
    ensures ItemsText(sep, items) + x == sep + (Print(items[0]) + (ItemsText(",", items[1..]) + x))
  {
  }

  lemma {:induction false} ItemsUnique(sep: string, a: seq<Value>, b: seq<Value>, x: string, y: string)
    requires Plain(List(a)) && Plain(List(b)) && Printable(List(a)) && Printable(List(b)) && (sep == "" || sep == ",")
    requires ItemsText(sep, a) + x == ItemsText(sep, b) + y
    ensures a == b && x == y
    decreases a
  {
    ItemsFirst(sep, a, x);
    ItemsFirst(sep, b, y);
    if a == [] {
      Unprefixed("]", x, y);
    } else {
      ItemsShape(sep, a, x);
      ItemsShape(sep, b, y);
      ItemsFirst(",", a[1..], x);
      ItemsFirst(",", b[1..], y);
      var r, s := ItemsText(",", a[1..]) + x, ItemsText(",", b[1..]) + y;
      Unprefixed(sep, Print(a[0]) + r, Print(b[0]) + s);
      PrintUnique(a[0], b[0], r, s);
      ItemsUnique(",", a[1..], b[1..], x, y);
      assert a == [a[0]] + a[1..] && b == [b[0]] + b[1..];
    }
  }

  lemma MembersFirst(sep: string, ms: seq<Member>, x: string)
    requires Plain(Dict(ms)) && (sep == "" || sep == ",")
    ensures MembersText(sep, ms) != []
    ensures ms == [] <==> (MembersText(sep, ms) + x)[0] == '}'
    ensures sep == "," ==> Delimited(MembersText(sep, ms) + x)
  {
    if ms != [] {
      var rest := MembersText(",", ms[1..]);
      assert MembersText("", ms) == MemberText(ms[0]) + rest;
    }
  }

  lemma MembersShape(sep: string, ms: seq<Member>, x: string)
    requires Plain(Dict(ms)) && ms != []
    ensures Plain(ms[0].value) && Plain(Dict(ms[1..]))
    ensures MembersText(sep, ms) + x == sep + (MemberText(ms[0]) + (MembersText(",", ms[1..]) + x))
  {
  }

  lemma MemberShape(m: Member, x: string)
    requires Plain(m.value)
    ensures MemberText(m) + x == "\"" + (Quoted(m.key.text) + (":" + (Print(m.value) + x)))
  {
  }

  lemma {:induction false} MemberUnique(a: Member, b: Member, x: string, y: string)
    requires a.key.isString && b.key.isString
    requires Plain(a.value) && Plain(b.value) && Printable(a.value) && Printable(b.value)
    requires Delimited(x) && Delimited(y) && MemberText(a) + x == MemberText(b) + y
    ensures a == b && x == y
    decreases a
  {
    MemberShape(a, x);
    MemberShape(b, y);
    var p, q := ":" + (Print(a.value) + x), ":" + (Print(b.value) + y);
    Unprefixed("\"", Quoted(a.key.text) + p, Quoted(b.key.text) + q);
    QuotedUnique(a.key.text, b.key.text, p, q);
    Unprefixed(":", Print(a.value) + x, Print(b.value) + y);
    PrintUnique(a.value, b.value, x, y);
  }

  lemma {:induction false} MembersUnique(sep: string, a: seq<Member>, b: seq<Member>, x: string, y: string)
    requires Plain(Dict(a)) && Plain(Dict(b)) && Printable(Dict(a)) && Printable(Dict(b)) && (sep == "" || sep == ",")
    requires MembersText(sep, a) + x == MembersText(sep, b) + y
    ensures a == b && x == y
    decreases a
  {
    MembersFirst(sep, a, x);
    MembersFirst(sep, b, y);
    if a == [] {
      Unprefixed("}", x, y);
    } else {
      MembersShape(sep, a, x);
      MembersShape(sep, b, y);
      MembersFirst(",", a[1..], x);
      MembersFirst(",", b[1..], y);
      var r, s := MembersText(",", a[1..]) + x, MembersText(",", b[1..]) + y;
      Unprefixed(sep, MemberText(a[0]) + r, MemberText(b[0]) + s);
      MemberUnique(a[0], b[0], r, s);
      MembersUnique(",", a[1..], b[1..], x, y);
      assert a == [a[0]] + a[1..] && b == [b[0]] + b[1..];
    }
  }
}
