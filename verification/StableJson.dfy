/**
 The canonical JSON printer used to compare stored profiles (workspaceDatabaseCompatibility.ts).

 Text is a sequence of UTF-16 code units. Escaping is that of JSON.stringify: section 25.5.2.3 of ECMA-262, with
 lone surrogates escaped. Members are ordered by code units, as in section 3.2.3 of RFC 8785. A number is the
 text it prints as.
 */
module StableJson {
  import opened Options

  type Unit = u: int | 0 <= u < 0x1_0000
  type Text = seq<Unit>

  const QUOTE: Unit := 0x22
  const COMMA: Unit := 0x2C
  const COLON: Unit := 0x3A
  const BACKSLASH: Unit := 0x5C
  const LOWER_U: Unit := 0x75
  const NULL_TEXT: Text := [0x6E, 0x75, 0x6C, 0x6C]
  const TRUE_TEXT: Text := [0x74, 0x72, 0x75, 0x65]
  const FALSE_TEXT: Text := [0x66, 0x61, 0x6C, 0x73, 0x65]

  datatype Json =
    | Null
    | Bool(value: bool)
    | Num(digits: Text)
    | Str(text: Text)
    | Arr(items: seq<Json>)
    | Obj(members: seq<Member>)

  /** A member whose value is undefined is one that stableJson drops. */
  datatype Member = Member(key: Text, value: Option<Json>)

  // ---------------------------------------------------------------- strings

  predicate High(u: Unit) { 0xD800 <= u < 0xDC00 }

  predicate Low(u: Unit) { 0xDC00 <= u < 0xE000 }

  function Hex(n: int): Unit
    requires 0 <= n < 16
  {
    if n < 10 then 0x30 + n else 0x57 + n
  }

  function Escaped(u: Unit): Text {
    if u == QUOTE || u == BACKSLASH then [BACKSLASH, u]
    else if u == 8 then [BACKSLASH, 0x62]
    else if u == 9 then [BACKSLASH, 0x74]
    else if u == 10 then [BACKSLASH, 0x6E]
    else if u == 12 then [BACKSLASH, 0x66]
    else if u == 13 then [BACKSLASH, 0x72]
    else if u < 0x20 || High(u) || Low(u) then
      [BACKSLASH, LOWER_U, Hex(u / 0x1000), Hex(u / 0x100 % 16), Hex(u / 0x10 % 16), Hex(u % 16)]
    else [u]
  }

  /** How many code units the next token of a string covers: a surrogate pair stays together. */
  function Width(s: Text): nat
    requires s != []
  {
    if |s| > 1 && High(s[0]) && Low(s[1]) then 2 else 1
  }

  function Token(s: Text): Text
    requires s != []
  {
    if Width(s) == 2 then s[..2] else Escaped(s[0])
  }

  function Tokens(s: Text): Text {
    if s == [] then [] else Token(s) + Tokens(s[Width(s)..])
  }

  function Quote(s: Text): Text { [QUOTE] + Tokens(s) + [QUOTE] }

  /** The length of a token can be told from its first two code units. */
  function TokenLength(t: Text): nat
    requires t != []
  {
    if High(t[0]) then 2 else if t[0] != BACKSLASH || |t| == 1 then 1 else if t[1] == LOWER_U then 6 else 2
  }

  lemma TokenHasLength(s: Text, x: Text)
    requires s != []
    ensures |Token(s)| == TokenLength(Token(s) + x) && Token(s)[0] != QUOTE
  {
    var t := Token(s) + x;
    assert t[0] == Token(s)[0] && (|Token(s)| > 1 ==> t[1] == Token(s)[1]);
  }

  lemma EscapedTells(u: Unit, v: Unit)
    requires Escaped(u) == Escaped(v)
    ensures u == v
  {
    assert Escaped(u)[0] == Escaped(v)[0];
    if |Escaped(u)| > 1 {
      assert Escaped(u)[1] == Escaped(v)[1];
      if |Escaped(u)| == 6 { HexDigitsTell(u, v); }
    }
  }

  lemma FourDigits(u: Unit)
    ensures u == 0x1000 * (u / 0x1000) + 0x100 * (u / 0x100 % 16) + 0x10 * (u / 0x10 % 16) + u % 16
  {
    assert u / 0x100 == 16 * (u / 0x1000) + u / 0x100 % 16;
    assert u / 0x10 == 16 * (u / 0x100) + u / 0x10 % 16;
  }

  lemma HexDigitsTell(u: Unit, v: Unit)
    requires |Escaped(u)| == 6 && Escaped(u) == Escaped(v)
    ensures u == v
  {
    var e := Escaped(u);
    assert e[2] == Hex(u / 0x1000) == Hex(v / 0x1000);
    assert e[3] == Hex(u / 0x100 % 16) == Hex(v / 0x100 % 16);
    assert e[4] == Hex(u / 0x10 % 16) == Hex(v / 0x10 % 16);
    assert e[5] == Hex(u % 16) == Hex(v % 16);
    FourDigits(u);
    FourDigits(v);
  }

  lemma TokenTells(a: Text, b: Text)
    requires a != [] && b != [] && Token(a) == Token(b)
    ensures Width(a) == Width(b) && a[..Width(a)] == b[..Width(b)]
  {
    assert Token(a)[0] == Token(b)[0];
    if Width(a) == 1 && Width(b) == 1 {
      EscapedTells(a[0], b[0]);
    }
  }

  lemma CutAt(p: Text, x: Text, q: Text, y: Text)
    requires p + x == q + y && |p| == |q|
    ensures p == q && x == y
  {
    assert p == (p + x)[..|p|] && q == (q + y)[..|q|];
    assert x == (p + x)[|p|..] && y == (q + y)[|q|..];
  }

  /** The tokens of a string end where its closing quote is, and nowhere else. */
  lemma {:induction false} TokensTell(a: Text, x: Text, b: Text, y: Text)
    requires Tokens(a) + ([QUOTE] + x) == Tokens(b) + ([QUOTE] + y)
    ensures a == b && x == y
    decreases |a|
  {
    var all := Tokens(a) + ([QUOTE] + x);
    if a == [] {
      assert all == [QUOTE] + x;
      if b == [] {
        CutAt([QUOTE], x, [QUOTE], y);
      } else {
        TokenHasLength(b, []);
        FirstToken(b, y);
      }
    } else if b == [] {
      assert all == [QUOTE] + y;
      TokenHasLength(a, []);
      FirstToken(a, x);
    } else {
      var restA, restB := Tokens(a[Width(a)..]) + ([QUOTE] + x), Tokens(b[Width(b)..]) + ([QUOTE] + y);
      FirstToken(a, x);
      FirstToken(b, y);
      TokenHasLength(a, restA);
      TokenHasLength(b, restB);
      CutAt(Token(a), restA, Token(b), restB);
      TokenTells(a, b);
      TokensTell(a[Width(a)..], x, b[Width(b)..], y);
      assert a == a[..Width(a)] + a[Width(a)..] && b == b[..Width(b)] + b[Width(b)..];
    }
  }

  lemma FirstToken(s: Text, x: Text)
    requires s != []
    ensures Tokens(s) + ([QUOTE] + x) == Token(s) + (Tokens(s[Width(s)..]) + ([QUOTE] + x))
    ensures |Token(s)| > 0 && (Tokens(s) + ([QUOTE] + x))[0] == Token(s)[0]
  {}

  lemma OpeningQuote(p: Text, x: Text, q: Text, y: Text)
    requires [QUOTE] + p + [QUOTE] + x == [QUOTE] + q + [QUOTE] + y
    ensures p + ([QUOTE] + x) == q + ([QUOTE] + y)
  {
    assert [QUOTE] + p + [QUOTE] + x == [QUOTE] + (p + ([QUOTE] + x));
    assert [QUOTE] + q + [QUOTE] + y == [QUOTE] + (q + ([QUOTE] + y));
    CutAt([QUOTE], p + ([QUOTE] + x), [QUOTE], q + ([QUOTE] + y));
  }

  /** A printed string shows where it ends and what it was. */
  lemma QuoteTells(a: Text, x: Text, b: Text, y: Text)
    requires Quote(a) + x == Quote(b) + y
    ensures a == b && x == y
  {
    OpeningQuote(Tokens(a), x, Tokens(b), y);
    TokensTell(a, x, b, y);
  }

  // ---------------------------------------------------------------- members in order

  /** Code unit order, the `<` of JavaScript strings. */
  predicate Less(a: Text, b: Text) {
    b != [] && (a == [] || a[0] < b[0] || (a[0] == b[0] && Less(a[1..], b[1..])))
  }

  lemma {:induction false} LessIsTotal(a: Text, b: Text)
    ensures a == b || Less(a, b) || Less(b, a)
  {
    if a != [] && b != [] && a[0] == b[0] {
      LessIsTotal(a[1..], b[1..]);
      assert a == [a[0]] + a[1..] && b == [b[0]] + b[1..];
    }
  }

  lemma {:induction false} LessIsTransitive(a: Text, b: Text, c: Text)
    requires Less(a, b) && Less(b, c)
    ensures Less(a, c)
  {
    if a != [] && a[0] == b[0] == c[0] { LessIsTransitive(a[1..], b[1..], c[1..]); }
  }

  lemma {:induction false} LessIsStrict(a: Text)
    ensures !Less(a, a)
  {
    if a != [] { LessIsStrict(a[1..]); }
  }

  function Defined(members: seq<Member>): (r: seq<Member>)
    ensures forall m :: m in r <==> m in members && m.value.Some?
  {
    if members == [] then []
    else (if members[0].value.Some? then [members[0]] else []) + Defined(members[1..])
  }

  function Insert(m: Member, sorted: seq<Member>): (r: seq<Member>)
    ensures forall e :: e in r <==> e == m || e in sorted
  {
    if sorted == [] || !Less(sorted[0].key, m.key) then [m] + sorted else [sorted[0]] + Insert(m, sorted[1..])
  }

  function Sort(members: seq<Member>): (r: seq<Member>)
    ensures forall m :: m in r <==> m in members
  {
    if members == [] then [] else Insert(members[0], Sort(members[1..]))
  }

  predicate Distinct(members: seq<Member>) {
    forall i, j | 0 <= i < j < |members| :: members[i].key != members[j].key
  }

  predicate Ascending(members: seq<Member>) {
    forall i, j | 0 <= i < j < |members| :: Less(members[i].key, members[j].key)
  }

  // ---------------------------------------------------------------- the printer

  function Join(pieces: seq<Text>): Text {
    if pieces == [] then [] else if |pieces| == 1 then pieces[0] else pieces[0] + [COMMA] + Join(pieces[1..])
  }

  function StableJson(j: Json): Text {
    match j
    case Null => NULL_TEXT
    case Bool(b) => if b then TRUE_TEXT else FALSE_TEXT
    case Num(digits) => digits
    case Str(text) => Quote(text)
    case Arr(items) => [0x5B] + Join(seq(|items|, i requires 0 <= i < |items| => StableJson(items[i]))) + [0x5D]
    case Obj(members) =>
      var sorted := Sort(Defined(members));
      [0x7B] + Join(seq(|sorted|, i requires 0 <= i < |sorted| =>
        assert sorted[i] in members && sorted[i].value.Some?;
        Quote(sorted[i].key) + [COLON] + StableJson(sorted[i].value.value))) + [0x7D]
  }

  // ---------------------------------------------------------------- what a value means

  /** A JSON value without member order and without undefined members. */
  datatype Meaning =
    | NullMeaning
    | BoolMeaning(value: bool)
    | NumMeaning(digits: Text)
    | StrMeaning(text: Text)
    | ArrMeaning(items: seq<Meaning>)
    | ObjMeaning(members: map<Text, Meaning>)

  predicate IsNumber(digits: Text) {
    digits != [] && StartsNumber(digits[0]) && forall i | 0 <= i < |digits| :: InNumber(digits[i])
  }

  predicate StartsNumber(u: Unit) { u == 0x2D || 0x30 <= u <= 0x39 }

  predicate InNumber(u: Unit) { StartsNumber(u) || u == 0x2B || u == 0x2E || u == 0x45 || u == 0x65 }

  /** Numbers print as numbers, and no two members of an object share a key. */
  predicate IsJson(j: Json) {
    match j
    case Num(digits) => IsNumber(digits)
    case Arr(items) => forall i | 0 <= i < |items| :: IsJson(items[i])
    case Obj(members) =>
      Distinct(members) && forall i | 0 <= i < |members| :: members[i].value.Some? ==> IsJson(members[i].value.value)
    case _ => true
  }

  lemma SameMember(members: seq<Member>, m: Member, n: Member)
    requires Distinct(members) && m in members && n in members && m.key == n.key
    ensures m == n
  {}

  ghost function KeySet(members: seq<Member>): set<Text> { set m | m in members :: m.key }

  ghost function Find(members: seq<Member>, k: Text): (m: Member)
    requires k in KeySet(members)
    ensures m in members && m.key == k
  {
    if members[0].key == k then members[0] else Find(members[1..], k)
  }

  ghost function MeaningOf(j: Json): Meaning
    requires IsJson(j)
  {
    match j
    case Null => NullMeaning
    case Bool(b) => BoolMeaning(b)
    case Num(digits) => NumMeaning(digits)
    case Str(text) => StrMeaning(text)
    case Arr(items) => ArrMeaning(seq(|items|, i requires 0 <= i < |items| => MeaningOf(items[i])))
    case Obj(members) =>
      ObjMeaning(map k | k in KeySet(Defined(members)) :: MeaningOf(Find(Defined(members), k).value.value))
  }

  // ---------------------------------------------------------------- unique readability

  predicate Delimits(x: Text) { x == [] || x[0] == COMMA || x[0] == 0x5D || x[0] == 0x7D }

  /** Where p and q stand before delimiters in one and the same text, they are the same piece of it. */
  ghost predicate Apart(p: Text, q: Text) {
    forall x, y | Delimits(x) && Delimits(y) && p + x == q + y :: p == q && x == y
  }

  ghost predicate AllApart(ps: seq<Text>, qs: seq<Text>) {
    && (forall p | p in ps :: !Delimits(p))
    && (forall q | q in qs :: !Delimits(q))
    && (forall p, q | p in ps && q in qs :: Apart(p, q))
  }

  function After(ps: seq<Text>, x: Text): Text
    requires ps != []
  {
    if |ps| == 1 then x else [COMMA] + (Join(ps[1..]) + x)
  }

  lemma FirstPiece(ps: seq<Text>, x: Text)
    requires ps != []
    ensures Join(ps) + x == ps[0] + After(ps, x)
  {}

  lemma HeadsApart(ps: seq<Text>, x: Text, qs: seq<Text>, y: Text)
    requires AllApart(ps, qs) && ps != [] && qs != []
    requires Delimits(x) && Delimits(y) && Join(ps) + x == Join(qs) + y
    ensures ps[0] == qs[0] && After(ps, x) == After(qs, y)
  {
    FirstPiece(ps, x);
    FirstPiece(qs, y);
    assert ps[0] in ps && qs[0] in qs && Apart(ps[0], qs[0]);
    assert Delimits(After(ps, x)) && Delimits(After(qs, y));
  }

  lemma NotEmptyList(ps: seq<Text>, x: Text)
    requires ps != [] && !Delimits(ps[0])
    ensures !Delimits(Join(ps) + x)
  {
    FirstPiece(ps, x);
  }

  predicate Closing(c: Unit) { c == 0x5D || c == 0x7D }

  /** A joined list shows its pieces and its end. */
  lemma {:induction false} JoinTells(ps: seq<Text>, qs: seq<Text>, c: Unit, x: Text, y: Text)
    requires AllApart(ps, qs) && Closing(c) && Join(ps) + ([c] + x) == Join(qs) + ([c] + y)
    ensures ps == qs && x == y
    decreases |ps|
  {
    if ps == [] || qs == [] {
      EmptyTells(ps, qs, c, x, y);
    } else {
      HeadsApart(ps, [c] + x, qs, [c] + y);
      if |ps| == 1 || |qs| == 1 {
        OneTells(ps, qs, c, x, y);
      } else {
        CutAt([COMMA], Join(ps[1..]) + ([c] + x), [COMMA], Join(qs[1..]) + ([c] + y));
        assert AllApart(ps[1..], qs[1..]);
        JoinTells(ps[1..], qs[1..], c, x, y);
        assert ps == [ps[0]] + ps[1..] && qs == [qs[0]] + qs[1..];
      }
    }
  }

  lemma EmptyTells(ps: seq<Text>, qs: seq<Text>, c: Unit, x: Text, y: Text)
    requires AllApart(ps, qs) && Closing(c) && Join(ps) + ([c] + x) == Join(qs) + ([c] + y)
    requires ps == [] || qs == []
    ensures ps == qs && x == y
  {
    assert [] + ([c] + x) == [c] + x && [] + ([c] + y) == [c] + y;
    if ps == [] && qs == [] {
      CutAt([c], x, [c], y);
    } else if ps == [] {
      NotEmptyList(qs, [c] + y);
    } else {
      NotEmptyList(ps, [c] + x);
    }
  }

  lemma OneTells(ps: seq<Text>, qs: seq<Text>, c: Unit, x: Text, y: Text)
    requires ps != [] && qs != [] && ps[0] == qs[0] && Closing(c)
    requires After(ps, [c] + x) == After(qs, [c] + y) && (|ps| == 1 || |qs| == 1)
    ensures ps == qs && x == y
  {
    assert After(ps, [c] + x)[0] == After(qs, [c] + y)[0];
    assert |ps| == |qs| == 1;
    CutAt([c], x, [c], y);
  }

  // ---- the pieces of arrays and objects

  function Printed(items: seq<Json>): seq<Text> {
    seq(|items|, i requires 0 <= i < |items| => StableJson(items[i]))
  }

  predicate AllDefined(members: seq<Member>) { forall m | m in members :: m.value.Some? }

  function Field(m: Member): Text
    requires m.value.Some?
  {
    Quote(m.key) + [COLON] + StableJson(m.value.value)
  }

  function Fields(members: seq<Member>): seq<Text>
    requires AllDefined(members)
  {
    seq(|members|, i requires 0 <= i < |members| => assert members[i] in members; Field(members[i]))
  }

  lemma PrintsArray(items: seq<Json>)
    ensures StableJson(Arr(items)) == [0x5B] + Join(Printed(items)) + [0x5D]
  {
    assert Printed(items) == seq(|items|, i requires 0 <= i < |items| => StableJson(items[i]));
  }

  lemma PrintsObject(members: seq<Member>)
    ensures AllDefined(Sort(Defined(members)))
    ensures StableJson(Obj(members)) == [0x7B] + Join(Fields(Sort(Defined(members)))) + [0x7D]
  {
    var sorted := Sort(Defined(members));
    assert Fields(sorted) == seq(|sorted|, i requires 0 <= i < |sorted| =>
        assert sorted[i] in members && sorted[i].value.Some?;
        Quote(sorted[i].key) + [COLON] + StableJson(sorted[i].value.value));
  }

  lemma Opens(j: Json)
    requires IsJson(j)
    ensures !Delimits(StableJson(j))
  {
    if j.Obj? { PrintsObject(j.members); }
  }

  lemma PairTells(k: Text, v: Text, x: Text, l: Text, w: Text, y: Text)
    requires Apart(v, w) && Delimits(x) && Delimits(y)
    requires Quote(k) + [COLON] + v + x == Quote(l) + [COLON] + w + y
    ensures k == l && v == w && x == y
  {
    assert Quote(k) + [COLON] + v + x == Quote(k) + ([COLON] + (v + x));
    assert Quote(l) + [COLON] + w + y == Quote(l) + ([COLON] + (w + y));
    QuoteTells(k, [COLON] + (v + x), l, [COLON] + (w + y));
    CutAt([COLON], v + x, [COLON], w + y);
  }

  lemma FieldsApart(m: Member, n: Member)
    requires m.value.Some? && n.value.Some? && Apart(StableJson(m.value.value), StableJson(n.value.value))
    ensures Apart(Field(m), Field(n))
  {
    forall x, y | Delimits(x) && Delimits(y) && Field(m) + x == Field(n) + y ensures Field(m) == Field(n) && x == y {
      PairTells(m.key, StableJson(m.value.value), x, n.key, StableJson(n.value.value), y);
    }
  }

  lemma BracketsTell(ps: seq<Text>, qs: seq<Text>, open: Unit, close: Unit, x: Text, y: Text)
    requires AllApart(ps, qs) && Closing(close)
    requires [open] + Join(ps) + [close] + x == [open] + Join(qs) + [close] + y
    ensures ps == qs && x == y
  {
    var a, b := Join(ps) + ([close] + x), Join(qs) + ([close] + y);
    assert [open] + Join(ps) + [close] + x == [open] + a && [open] + Join(qs) + [close] + y == [open] + b;
    CutAt([open], a, [open], b);
    JoinTells(ps, qs, close, x, y);
  }

  lemma BracketsApart(ps: seq<Text>, qs: seq<Text>, open: Unit, close: Unit)
    requires AllApart(ps, qs) && Closing(close)
    ensures Apart([open] + Join(ps) + [close], [open] + Join(qs) + [close])
  {
    var p, q := [open] + Join(ps) + [close], [open] + Join(qs) + [close];
    forall x, y | Delimits(x) && Delimits(y) && p + x == q + y ensures p == q && x == y {
      BracketsTell(ps, qs, open, close, x, y);
    }
  }

  lemma LongerNumber(p: Text, x: Text, q: Text, y: Text)
    requires IsNumber(q) && Delimits(x) && |p| < |q|
    ensures p + x != q + y
  {
    assert (q + y)[|p|] == q[|p|];
    assert x != [] ==> (p + x)[|p|] == x[0];
  }

  lemma NumbersApart(p: Text, q: Text)
    requires IsNumber(p) && IsNumber(q)
    ensures Apart(p, q)
  {
    forall x, y | Delimits(x) && Delimits(y) && |p| != |q| ensures p + x != q + y {
      if |p| < |q| { LongerNumber(p, x, q, y); } else { LongerNumber(q, y, p, x); }
    }
    forall x, y | p + x == q + y && |p| == |q| ensures p == q && x == y { CutAt(p, x, q, y); }
  }

  lemma QuotesApart(a: Text, b: Text)
    ensures Apart(Quote(a), Quote(b))
  {
    forall x, y | Delimits(x) && Delimits(y) && Quote(a) + x == Quote(b) + y ensures Quote(a) == Quote(b) && x == y {
      QuoteTells(a, x, b, y);
    }
  }

  lemma DifferentStarts(p: Text, q: Text)
    requires p != [] && q != [] && p[0] != q[0]
    ensures Apart(p, q)
  {
    forall x, y ensures p + x != q + y { assert (p + x)[0] != (q + y)[0]; }
  }

  lemma SelfApart(p: Text)
    ensures Apart(p, p)
  {
    forall x, y | Delimits(x) && Delimits(y) && p + x == p + y ensures x == y { CutAt(p, x, p, y); }
  }

  function Start(j: Json): Unit
    requires IsJson(j)
  {
    match j
    case Null => 0x6E
    case Bool(b) => if b then 0x74 else 0x66
    case Num(_) => 0x30
    case Str(_) => QUOTE
    case Arr(_) => 0x5B
    case Obj(_) => 0x7B
  }

  lemma StartTells(j: Json)
    requires IsJson(j)
    ensures StableJson(j) != []
    ensures if j.Num? then StartsNumber(StableJson(j)[0]) else StableJson(j)[0] == Start(j)
  {}

  lemma KindsApart(a: Json, b: Json)
    requires IsJson(a) && IsJson(b) && Start(a) != Start(b)
    ensures Apart(StableJson(a), StableJson(b))
  {
    StartTells(a);
    StartTells(b);
    DifferentStarts(StableJson(a), StableJson(b));
  }

  /** Unique readability: in any surrounding text, a printed value ends where it ends. */
  lemma {:induction false} ValuesApart(a: Json, b: Json)
    requires IsJson(a) && IsJson(b)
    ensures Apart(StableJson(a), StableJson(b))
    decreases a
  {
    if Start(a) != Start(b) {
      KindsApart(a, b);
    } else if a.Arr? {
      ItemsApart(a.items, b.items, a);
    } else if a.Obj? {
      MembersApart(a.members, b.members, a);
    } else if a.Num? {
      NumbersApart(a.digits, b.digits);
    } else if a.Str? {
      QuotesApart(a.text, b.text);
    } else {
      SelfApart(StableJson(a));
    }
  }

  lemma {:induction false} ItemsApart(xs: seq<Json>, ys: seq<Json>, owner: Json)
    requires owner == Arr(xs) && IsJson(Arr(xs)) && IsJson(Arr(ys))
    ensures Apart(StableJson(Arr(xs)), StableJson(Arr(ys))) && AllApart(Printed(xs), Printed(ys))
    decreases owner, 0
  {
    var ps, qs := Printed(xs), Printed(ys);
    forall i, k | 0 <= i < |xs| && 0 <= k < |ys|
      ensures Apart(ps[i], qs[k])
    {
      ValuesApart(xs[i], ys[k]);
    }
    forall i | 0 <= i < |xs| ensures !Delimits(ps[i]) { Opens(xs[i]); }
    forall k | 0 <= k < |ys| ensures !Delimits(qs[k]) { Opens(ys[k]); }
    PrintsArray(xs);
    PrintsArray(ys);
    BracketsApart(ps, qs, 0x5B, 0x5D);
  }

  lemma {:induction false} MembersApart(xs: seq<Member>, ys: seq<Member>, owner: Json)
    requires owner == Obj(xs) && IsJson(Obj(xs)) && IsJson(Obj(ys))
    ensures Apart(StableJson(Obj(xs)), StableJson(Obj(ys)))
    ensures AllApart(Fields(Sort(Defined(xs))), Fields(Sort(Defined(ys))))
    decreases owner, 0
  {
    PrintsObject(xs);
    PrintsObject(ys);
    var ms, ns := Sort(Defined(xs)), Sort(Defined(ys));
    var ps, qs := Fields(ms), Fields(ns);
    forall i, k | 0 <= i < |ms| && 0 <= k < |ns|
      ensures Apart(ps[i], qs[k])
    {
      assert ms[i] in xs && ns[k] in ys;
      ValuesApart(ms[i].value.value, ns[k].value.value);
      FieldsApart(ms[i], ns[k]);
    }
    BracketsApart(ps, qs, 0x7B, 0x7D);
  }

  // ---------------------------------------------------------------- equal text, equal meaning

  lemma JoinedEqual(ps: seq<Text>, qs: seq<Text>, open: Unit, close: Unit)
    requires AllApart(ps, qs) && Closing(close)
    requires [open] + Join(ps) + [close] == [open] + Join(qs) + [close]
    ensures ps == qs
  {
    assert forall p :: [open] + p + [close] == [open] + (p + ([close] + []));
    CutAt([open], Join(ps) + ([close] + []), [open], Join(qs) + ([close] + []));
    JoinTells(ps, qs, close, [], []);
  }

  lemma {:induction false} InsertAscends(m: Member, sorted: seq<Member>)
    requires Ascending(sorted) && m.key !in KeySet(sorted)
    ensures Ascending(Insert(m, sorted))
    decreases |sorted|
  {
    if sorted != [] {
      assert sorted[0] in sorted;
      LessIsTotal(sorted[0].key, m.key);
      if Less(sorted[0].key, m.key) {
        assert forall e :: e in sorted[1..] ==> e in sorted;
        InsertAscends(m, sorted[1..]);
        var rest := Insert(m, sorted[1..]);
        forall i | 0 <= i < |rest| ensures Less(sorted[0].key, rest[i].key) { assert rest[i] in rest; }
      } else {
        forall i | 0 < i < |sorted| ensures Less(m.key, sorted[i].key) {
          LessIsTransitive(m.key, sorted[0].key, sorted[i].key);
        }
      }
    }
  }

  lemma {:induction false} SortAscends(members: seq<Member>)
    requires Distinct(members)
    ensures Ascending(Sort(members))
    decreases |members|
  {
    if members != [] {
      SortAscends(members[1..]);
      InsertAscends(members[0], Sort(members[1..]));
    }
  }

  lemma {:induction false} DefinedDistinct(members: seq<Member>)
    requires Distinct(members)
    ensures Distinct(Defined(members))
    decreases |members|
  {
    if members != [] {
      DefinedDistinct(members[1..]);
      var rest := Defined(members[1..]);
      forall i | 0 <= i < |rest| ensures rest[i].key != members[0].key { assert rest[i] in rest; }
    }
  }

  lemma FirstIsLeast(members: seq<Member>, k: Text)
    requires Ascending(members) && k in KeySet(members)
    ensures k == members[0].key || Less(members[0].key, k)
  {}

  lemma RestOfKeys(members: seq<Member>)
    requires Ascending(members) && members != []
    ensures KeySet(members[1..]) == KeySet(members) - {members[0].key}
  {
    LessIsStrict(members[0].key);
    assert forall m :: m in members <==> m == members[0] || m in members[1..];
    forall m | m in members[1..] ensures m.key != members[0].key {}
  }

  /** Sorted members with the same keys have the same keys in the same places. */
  lemma {:induction false} SameKeysSameOrder(ms: seq<Member>, ns: seq<Member>)
    requires Ascending(ms) && Ascending(ns) && KeySet(ms) == KeySet(ns)
    ensures |ms| == |ns| && forall i | 0 <= i < |ms| :: ms[i].key == ns[i].key
    decreases |ms|
  {
    if ms == [] {
      assert ns != [] ==> ns[0].key in KeySet(ns);
    } else {
      assert ms[0].key in KeySet(ms);
      var n :| n in ns && n.key == ms[0].key;
      assert ns[0].key in KeySet(ns);
      FirstIsLeast(ms, ns[0].key);
      FirstIsLeast(ns, ms[0].key);
      if Less(ms[0].key, ns[0].key) && Less(ns[0].key, ms[0].key) {
        LessIsTransitive(ms[0].key, ns[0].key, ms[0].key);
        LessIsStrict(ms[0].key);
      }
      RestOfKeys(ms);
      RestOfKeys(ns);
      SameKeysSameOrder(ms[1..], ns[1..]);
      assert forall i | 0 < i < |ms| :: ms[i] == ms[1..][i - 1] && ns[i] == ns[1..][i - 1];
    }
  }

  lemma SortedMembers(members: seq<Member>)
    requires IsJson(Obj(members))
    ensures var sorted := Sort(Defined(members));
      Ascending(sorted) && forall m | m in sorted :: m in members && m.value.Some? && IsJson(m.value.value)
  {
    DefinedDistinct(members);
    SortAscends(Defined(members));
  }

  lemma MemberMeans(members: seq<Member>, m: Member)
    requires IsJson(Obj(members)) && m in members && m.value.Some?
    ensures IsJson(m.value.value) && m.key in MeaningOf(Obj(members)).members
    ensures MeaningOf(Obj(members)).members[m.key] == MeaningOf(m.value.value)
  {
    assert m in Defined(members);
    SameMember(members, m, Find(Defined(members), m.key));
  }

  lemma MeaningKeys(members: seq<Member>)
    requires IsJson(Obj(members))
    ensures MeaningOf(Obj(members)).members.Keys == KeySet(Sort(Defined(members)))
  {
    var sorted, meaning := Sort(Defined(members)), MeaningOf(Obj(members)).members;
    forall k | k in meaning ensures k in KeySet(sorted) { assert Find(Defined(members), k) in sorted; }
    forall k | k in KeySet(sorted) ensures k in meaning {
      var m :| m in sorted && m.key == k;
      MemberMeans(members, m);
    }
  }

  /** The members agree place by place. */
  ghost predicate Agree(ms: seq<Member>, ns: seq<Member>) {
    |ms| == |ns| && forall i | 0 <= i < |ms| :: AgreeAt(ms[i], ns[i])
  }

  ghost predicate AgreeAt(m: Member, n: Member) {
    && m.key == n.key && m.value.Some? && n.value.Some? && IsJson(m.value.value) && IsJson(n.value.value)
    && MeaningOf(m.value.value) == MeaningOf(n.value.value)
  }

  lemma AgreeingKeys(ms: seq<Member>, ns: seq<Member>)
    requires Agree(ms, ns)
    ensures KeySet(ms) == KeySet(ns)
  {
    forall i | 0 <= i < |ms| ensures ms[i].key in KeySet(ns) && ns[i].key in KeySet(ms) {
      assert AgreeAt(ms[i], ns[i]) && ms[i] in ms && ns[i] in ns;
    }
  }

  lemma AgreeingValue(xs: seq<Member>, ys: seq<Member>, k: Text)
    requires IsJson(Obj(xs)) && IsJson(Obj(ys)) && Agree(Sort(Defined(xs)), Sort(Defined(ys)))
    requires k in MeaningOf(Obj(xs)).members && k in MeaningOf(Obj(ys)).members
    ensures MeaningOf(Obj(xs)).members[k] == MeaningOf(Obj(ys)).members[k]
  {
    var ms, ns := Sort(Defined(xs)), Sort(Defined(ys));
    MeaningKeys(xs);
    var i :| 0 <= i < |ms| && ms[i].key == k;
    assert AgreeAt(ms[i], ns[i]) && ms[i] in ms && ns[i] in ns;
    MemberMeans(xs, ms[i]);
    MemberMeans(ys, ns[i]);
  }

  lemma SameMap(p: map<Text, Meaning>, q: map<Text, Meaning>)
    requires p.Keys == q.Keys && forall k | k in p :: p[k] == q[k]
    ensures p == q
  {}

  lemma IsObject(members: seq<Member>)
    requires IsJson(Obj(members))
    ensures MeaningOf(Obj(members)) == ObjMeaning(MeaningOf(Obj(members)).members)
  {}

  /** Objects whose sorted members agree mean the same. */
  lemma SamePlacesSameMeaning(xs: seq<Member>, ys: seq<Member>)
    requires IsJson(Obj(xs)) && IsJson(Obj(ys)) && Agree(Sort(Defined(xs)), Sort(Defined(ys)))
    ensures MeaningOf(Obj(xs)) == MeaningOf(Obj(ys))
  {
    IsObject(xs);
    IsObject(ys);
    var p, q := MeaningOf(Obj(xs)).members, MeaningOf(Obj(ys)).members;
    assert p.Keys == q.Keys by {
      MeaningKeys(xs);
      MeaningKeys(ys);
      AgreeingKeys(Sort(Defined(xs)), Sort(Defined(ys)));
    }
    forall k | k in p ensures p[k] == q[k] { AgreeingValue(xs, ys, k); }
    SameMap(p, q);
  }

  lemma {:induction false} SameTextSameMeaning(a: Json, b: Json)
    requires IsJson(a) && IsJson(b) && StableJson(a) == StableJson(b)
    ensures MeaningOf(a) == MeaningOf(b)
    decreases a
  {
    StartTells(a);
    StartTells(b);
    if a.Arr? {
      ItemsApart(a.items, b.items, a);
      PrintsArray(a.items);
      PrintsArray(b.items);
      JoinedEqual(Printed(a.items), Printed(b.items), 0x5B, 0x5D);
      forall i | 0 <= i < |a.items| ensures i < |b.items| && MeaningOf(a.items[i]) == MeaningOf(b.items[i]) {
        assert Printed(a.items)[i] == Printed(b.items)[i];
        SameTextSameMeaning(a.items[i], b.items[i]);
      }
      assert |Printed(a.items)| == |Printed(b.items)|;
    } else if a.Obj? {
      SameTextSameMembers(a.members, b.members, a);
    } else if a.Str? {
      QuoteTells(a.text, [], b.text, []);
    }
  }

  lemma {:induction false} SameTextSameMembers(xs: seq<Member>, ys: seq<Member>, owner: Json)
    requires owner == Obj(xs) && IsJson(Obj(xs)) && IsJson(Obj(ys)) && StableJson(Obj(xs)) == StableJson(Obj(ys))
    ensures MeaningOf(Obj(xs)) == MeaningOf(Obj(ys))
    decreases owner, 0
  {
    var ms, ns := Sort(Defined(xs)), Sort(Defined(ys));
    SortedMembers(xs);
    SortedMembers(ys);
    SameObjectText(xs, ys, owner);
    forall i | 0 <= i < |ms| ensures AgreeAt(ms[i], ns[i]) {
      assert ms[i] in ms && ms[i] in xs && ns[i] in ns;
      SameTextSameMeaning(ms[i].value.value, ns[i].value.value);
    }
    SamePlacesSameMeaning(xs, ys);
  }

  lemma SameObjectText(xs: seq<Member>, ys: seq<Member>, owner: Json)
    requires owner == Obj(xs) && IsJson(Obj(xs)) && IsJson(Obj(ys)) && StableJson(Obj(xs)) == StableJson(Obj(ys))
    ensures var ms, ns := Sort(Defined(xs)), Sort(Defined(ys));
      && AllDefined(ms) && AllDefined(ns) && |ms| == |ns|
      && (forall i | 0 <= i < |ms| :: ms[i].key == ns[i].key)
      && (forall i | 0 <= i < |ms| :: StableJson(ms[i].value.value) == StableJson(ns[i].value.value))
  {
    var ms, ns := Sort(Defined(xs)), Sort(Defined(ys));
    PrintsObject(xs);
    PrintsObject(ys);
    MembersApart(xs, ys, owner);
    JoinedEqual(Fields(ms), Fields(ns), 0x7B, 0x7D);
    assert |Fields(ms)| == |ms| && |Fields(ns)| == |ns|;
    forall i | 0 <= i < |ms|
      ensures ms[i].key == ns[i].key && StableJson(ms[i].value.value) == StableJson(ns[i].value.value)
    {
      assert ms[i] in ms && ns[i] in ns && Fields(ms)[i] == Fields(ns)[i];
      PairsEqual(ms[i].key, StableJson(ms[i].value.value), ns[i].key, StableJson(ns[i].value.value));
    }
  }

  lemma PairsEqual(k: Text, v: Text, l: Text, w: Text)
    requires Quote(k) + [COLON] + v == Quote(l) + [COLON] + w
    ensures k == l && v == w
  {
    assert Quote(k) + [COLON] + v == Quote(k) + ([COLON] + v) && Quote(l) + [COLON] + w == Quote(l) + ([COLON] + w);
    QuoteTells(k, [COLON] + v, l, [COLON] + w);
    CutAt([COLON], v, [COLON], w);
  }

  lemma {:induction false} SameMeaningSameText(a: Json, b: Json)
    requires IsJson(a) && IsJson(b) && MeaningOf(a) == MeaningOf(b)
    ensures StableJson(a) == StableJson(b)
    decreases a
  {
    if a.Arr? {
      assert |MeaningOf(a).items| == |a.items| == |b.items|;
      forall i | 0 <= i < |a.items| ensures Printed(a.items)[i] == Printed(b.items)[i] {
        assert MeaningOf(a).items[i] == MeaningOf(b).items[i];
        SameMeaningSameText(a.items[i], b.items[i]);
      }
      assert Printed(a.items) == Printed(b.items);
      PrintsArray(a.items);
      PrintsArray(b.items);
    } else if a.Obj? {
      SameMembersSameText(a.members, b.members, a);
    }
  }

  lemma {:induction false} SameMembersSameText(xs: seq<Member>, ys: seq<Member>, owner: Json)
    requires owner == Obj(xs) && IsJson(Obj(xs)) && IsJson(Obj(ys)) && MeaningOf(Obj(xs)) == MeaningOf(Obj(ys))
    ensures StableJson(Obj(xs)) == StableJson(Obj(ys))
    decreases owner, 0
  {
    var ms, ns := Sort(Defined(xs)), Sort(Defined(ys));
    SortedMembers(xs);
    SortedMembers(ys);
    SamePlaces(xs, ys);
    forall i | 0 <= i < |ms| ensures Fields(ms)[i] == Fields(ns)[i] {
      assert AgreeAt(ms[i], ns[i]) && ms[i] in ms && ms[i] in xs && ns[i] in ns;
      SameMeaningSameText(ms[i].value.value, ns[i].value.value);
    }
    assert Fields(ms) == Fields(ns);
    PrintsObject(xs);
    PrintsObject(ys);
  }

  lemma SamePlaces(xs: seq<Member>, ys: seq<Member>)
    requires IsJson(Obj(xs)) && IsJson(Obj(ys)) && MeaningOf(Obj(xs)) == MeaningOf(Obj(ys))
    ensures Agree(Sort(Defined(xs)), Sort(Defined(ys)))
  {
    var ms, ns := Sort(Defined(xs)), Sort(Defined(ys));
    SortedMembers(xs);
    SortedMembers(ys);
    MeaningKeys(xs);
    MeaningKeys(ys);
    SameKeysSameOrder(ms, ns);
    forall i | 0 <= i < |ms| ensures AgreeAt(ms[i], ns[i]) {
      assert ms[i] in ms && ns[i] in ns;
      MemberMeans(xs, ms[i]);
      MemberMeans(ys, ns[i]);
    }
  }

  /** Two values print alike exactly when they differ at most in member order and undefined members. */
  lemma {:induction false} TextIsMeaning(a: Json, b: Json)
    requires IsJson(a) && IsJson(b)
    ensures StableJson(a) == StableJson(b) <==> MeaningOf(a) == MeaningOf(b)
  {
    if StableJson(a) == StableJson(b) { SameTextSameMeaning(a, b); }
    if MeaningOf(a) == MeaningOf(b) { SameMeaningSameText(a, b); }
  }
}
