/** The values a canonical payload is made of, and their JSON text. */
module Json {
  newtype CodeUnit = x: int | 0 <= x < 0x1_0000

  /** A JavaScript string is a sequence of UTF-16 code units; surrogates need not be paired. */
  type Text = seq<CodeUnit>

  /** The UTF-16 code units of a string of Unicode characters. */
  function Utf16(s: string): Text {
    if s == [] then []
    else
      var c := s[0] as int;
      (if c < 0x1_0000 then [c as CodeUnit]
       else [(0xD800 + (c - 0x1_0000) / 0x400) as CodeUnit, (0xDC00 + (c - 0x1_0000) % 0x400) as CodeUnit])
      + Utf16(s[1..])
  }

  lemma Utf16Head(s: string)
    requires s != []
    ensures var c := s[0] as int; var u := Utf16(s);
      && (IsHigh(u[0]) <==> c >= 0x1_0000)
      && (c < 0x1_0000 ==> u[0] as int == c && u[1..] == Utf16(s[1..]))
      && (c >= 0x1_0000 ==> |u| >= 2 && u[2..] == Utf16(s[1..]))
      && (c >= 0x1_0000 ==> c == 0x1_0000 + (u[0] as int - 0xD800) * 0x400 + (u[1] as int - 0xDC00))
  {
  }

  /** Different strings have different code units. */
  lemma {:induction false} Utf16IsInjective(s: string, t: string)
    requires Utf16(s) == Utf16(t)
    ensures s == t
  {
    if s != [] && t != [] {
      Utf16Head(s);
      Utf16Head(t);
      Utf16IsInjective(s[1..], t[1..]);
      assert s == [s[0]] + s[1..] && t == [t[0]] + t[1..];
    }
  }

  // The code units that JSON text gives a meaning to.
  const QUOTE: CodeUnit := 0x22
  const COMMA: CodeUnit := 0x2C
  const COLON: CodeUnit := 0x3A
  const OPEN_BRACKET: CodeUnit := 0x5B
  const BACKSLASH: CodeUnit := 0x5C
  const CLOSE_BRACKET: CodeUnit := 0x5D
  const OPEN_BRACE: CodeUnit := 0x7B
  const CLOSE_BRACE: CodeUnit := 0x7D

  predicate IsDigit(c: CodeUnit) {
    0x30 <= c <= 0x39
  }

  /** Digits, '+', '-', '.' and 'e': what a printed number consists of. */
  predicate IsNumberUnit(c: CodeUnit) {
    IsDigit(c) || c == 0x2B || c == 0x2D || c == 0x2E || c == 0x65
  }

  predicate IsToken(t: Text) {
    t != [] && (IsDigit(t[0]) || t[0] == 0x2D) && forall i :: 0 <= i < |t| ==> IsNumberUnit(t[i])
  }

  /** The decimal text of a finite number, which determines the number. */
  type Token = t: Text | IsToken(t) witness [0x30]

  datatype Number = NonFinite | NegativeZero | Finite(token: Token)

  const ZERO: Number := Finite([0x30])

  /** A JavaScript value; an object's fields are in the order the engine enumerates them. */
  datatype Js =
    | Undefined
    | Null
    | Bool(flag: bool)
    | Num(number: Number)
    | Str(text: Text)
    | Arr(items: seq<Js>)
    | Obj(fields: seq<Field>)
    | Unsupported

  datatype Field = Field(key: Text, value: Js)

  // ----- Printing -----------------------------------------------------------

  predicate IsHigh(c: CodeUnit) {
    0xD800 <= c < 0xDC00
  }

  predicate IsLow(c: CodeUnit) {
    0xDC00 <= c < 0xE000
  }

  predicate StartsWithPair(t: Text) {
    |t| >= 2 && IsHigh(t[0]) && IsLow(t[1])
  }

  function HexDigit(d: int): CodeUnit
    requires 0 <= d < 16
  {
    if d < 10 then (0x30 + d) as CodeUnit else (0x57 + d) as CodeUnit
  }

  /** Four lower-case hexadecimal digits, highest first. */
  function Hex4(n: int): Text
    requires 0 <= n < 0x1_0000
  {
    [HexDigit(n / 16 / 16 / 16), HexDigit(n / 16 / 16 % 16), HexDigit(n / 16 % 16), HexDigit(n % 16)]
  }

  /** A code unit outside a surrogate pair: literal, two-character escape, or \\u and four digits. */
  function EscapeUnit(c: CodeUnit): Text {
    if c == 0x08 then [BACKSLASH, 0x62]
    else if c == 0x09 then [BACKSLASH, 0x74]
    else if c == 0x0A then [BACKSLASH, 0x6E]
    else if c == 0x0C then [BACKSLASH, 0x66]
    else if c == 0x0D then [BACKSLASH, 0x72]
    else if c == QUOTE then [BACKSLASH, QUOTE]
    else if c == BACKSLASH then [BACKSLASH, BACKSLASH]
    else if c < 0x20 || IsHigh(c) || IsLow(c) then
      [BACKSLASH, 0x75] + Hex4(c as int)
    else [c]
  }

  function Escape(t: Text): Text {
    if t == [] then []
    else if StartsWithPair(t) then t[..2] + Escape(t[2..])
    else EscapeUnit(t[0]) + Escape(t[1..])
  }

  function Quote(t: Text): Text {
    [QUOTE] + Escape(t) + [QUOTE]
  }

  /** A value JSON text can hold. */
  predicate Plain(v: Js) {
    match v
    case Undefined => false
    case Unsupported => false
    case Num(n) => n.Finite?
    case Arr(items) => PlainItems(items)
    case Obj(fields) => PlainFields(fields)
    case _ => true
  }

  predicate PlainItems(xs: seq<Js>) {
    xs == [] || (Plain(xs[0]) && PlainItems(xs[1..]))
  }

  predicate PlainFields(fs: seq<Field>) {
    fs == [] || (Plain(fs[0].value) && PlainFields(fs[1..]))
  }

  function Print(v: Js): Text
    requires Plain(v)
  {
    match v
    case Null => [0x6E, 0x75, 0x6C, 0x6C]
    case Bool(b) => if b then [0x74, 0x72, 0x75, 0x65] else [0x66, 0x61, 0x6C, 0x73, 0x65]
    case Num(n) => n.token
    case Str(t) => Quote(t)
    case Arr(items) => [OPEN_BRACKET] + PrintItems(items, true)
    case Obj(fields) => [OPEN_BRACE] + PrintFields(fields, true)
  }

  /** The items with their separators, up to and including the closing bracket. */
  function PrintItems(xs: seq<Js>, first: bool): Text
    requires PlainItems(xs)
  {
    if xs == [] then [CLOSE_BRACKET]
    else (if first then [] else [COMMA]) + Print(xs[0]) + PrintItems(xs[1..], false)
  }

  function PrintFields(fs: seq<Field>, first: bool): Text
    requires PlainFields(fs)
  {
    if fs == [] then [CLOSE_BRACE]
    else (if first then [] else [COMMA])
         + (Quote(fs[0].key) + ([COLON] + (Print(fs[0].value) + PrintFields(fs[1..], false))))
  }

  // ----- JSON text is unambiguous -------------------------------------------

  lemma HexDigitIsInjective(d: int, e: int)
    requires 0 <= d < 16 && 0 <= e < 16 && HexDigit(d) == HexDigit(e)
    ensures d == e
  {
  }

  lemma Hex4IsInjective(m: int, n: int)
    requires 0 <= m < 0x1_0000 && 0 <= n < 0x1_0000 && Hex4(m) == Hex4(n)
    ensures m == n
  {
    var x, y := Hex4(m), Hex4(n);
    assert x[0] == y[0] && x[1] == y[1] && x[2] == y[2] && x[3] == y[3];
    HexDigitIsInjective(m / 16 / 16 / 16, n / 16 / 16 / 16);
    HexDigitIsInjective(m / 16 / 16 % 16, n / 16 / 16 % 16);
    HexDigitIsInjective(m / 16 % 16, n / 16 % 16);
    HexDigitIsInjective(m % 16, n % 16);
  }

  predicate IsLong(c: CodeUnit) {
    |EscapeUnit(c)| == 6
  }

  lemma LongEscapesDiffer(c: CodeUnit, d: CodeUnit, r: Text, s: Text)
    requires IsLong(c) && IsLong(d) && EscapeUnit(c) + r == EscapeUnit(d) + s
    ensures c == d
  {
    assert Hex4(c as int) == (EscapeUnit(c) + r)[2..6] && Hex4(d as int) == (EscapeUnit(d) + s)[2..6];
    Hex4IsInjective(c as int, d as int);
  }

  /** What follows an escaped unit begins where the unit's code ends. */
  lemma EscapeUnitIsPrefixFree(c: CodeUnit, d: CodeUnit, r: Text, s: Text)
    requires EscapeUnit(c) + r == EscapeUnit(d) + s
    ensures c == d && r == s
  {
    var x, y := EscapeUnit(c), EscapeUnit(d);
    assert (x + r)[0] == x[0] && (y + s)[0] == y[0];
    if |x| > 1 {
      assert |y| > 1;
      assert (x + r)[1] == x[1] && (y + s)[1] == y[1];
      assert IsLong(c) <==> IsLong(d);
      if IsLong(c) {
        LongEscapesDiffer(c, d, r, s);
      }
    }
    assert c == d;
    assert r == (x + r)[|x|..] && s == (y + s)[|y|..];
  }

  lemma EscapeUnitHead(c: CodeUnit)
    ensures EscapeUnit(c)[0] != QUOTE && !IsHigh(EscapeUnit(c)[0])
  {
  }

  /** An escaped text ends at the first closing quote. */
  lemma {:induction false} EscapeIsDelimited(t: Text, u: Text, r: Text, s: Text)
    requires Escape(t) + [QUOTE] + r == Escape(u) + [QUOTE] + s
    ensures t == u && r == s
    decreases |t|
  {
    var a, b := Escape(t) + [QUOTE] + r, Escape(u) + [QUOTE] + s;
    EscapeHead(t, r);
    EscapeHead(u, s);
    if t == [] {
      assert r == a[1..] && s == b[1..];
    } else if StartsWithPair(t) {
      EscapePair(t, r);
      EscapePair(u, s);
      EscapeIsDelimited(t[2..], u[2..], r, s);
      assert t == t[..2] + t[2..] && u == u[..2] + u[2..];
    } else {
      EscapeSingle(t, r);
      EscapeSingle(u, s);
      EscapeUnitIsPrefixFree(t[0], u[0], Escape(t[1..]) + [QUOTE] + r, Escape(u[1..]) + [QUOTE] + s);
      EscapeIsDelimited(t[1..], u[1..], r, s);
      assert t == [t[0]] + t[1..] && u == [u[0]] + u[1..];
    }
  }

  /** The first unit tells whether the text is empty or starts with a pair. */
  lemma EscapeHead(t: Text, r: Text)
    ensures var a := Escape(t) + [QUOTE] + r;
      && (a[0] == QUOTE <==> t == []) && (IsHigh(a[0]) <==> StartsWithPair(t))
  {
    if t != [] && !StartsWithPair(t) {
      EscapeUnitHead(t[0]);
    }
  }

  lemma EscapePair(t: Text, r: Text)
    requires StartsWithPair(t)
    ensures var a := Escape(t) + [QUOTE] + r;
      |a| >= 2 && a[..2] == t[..2] && a[2..] == Escape(t[2..]) + [QUOTE] + r
  {
  }

  lemma EscapeSingle(t: Text, r: Text)
    requires t != [] && !StartsWithPair(t)
    ensures Escape(t) + [QUOTE] + r == EscapeUnit(t[0]) + (Escape(t[1..]) + [QUOTE] + r)
  {
  }

  lemma QuoteOpens(t: Text, r: Text)
    ensures Quote(t) + r == [QUOTE] + (Escape(t) + [QUOTE] + r)
  {
  }

  lemma SameTextSameRest(p: Text, r: Text, s: Text)
    requires p + r == p + s
    ensures r == s
  {
    assert r == (p + r)[|p|..] && s == (p + s)[|p|..];
  }

  lemma QuoteIsDelimited(t: Text, u: Text, r: Text, s: Text)
    requires Quote(t) + r == Quote(u) + s
    ensures t == u && r == s
  {
    QuoteOpens(t, r);
    QuoteOpens(u, s);
    SameTextSameRest([QUOTE], Escape(t) + [QUOTE] + r, Escape(u) + [QUOTE] + s);
    EscapeIsDelimited(t, u, r, s);
  }

  /** What may follow a number. */
  predicate Ends(r: Text) {
    r == [] || !IsNumberUnit(r[0])
  }

  lemma LongerTokenRunsOn(t: Token, u: Token, r: Text, s: Text)
    requires t + r == u + s && |t| < |u|
    ensures !Ends(r)
  {
    assert (t + r)[|t|] == (u + s)[|t|] == u[|t|];
  }

  lemma TokenIsDelimited(t: Token, u: Token, r: Text, s: Text)
    requires t + r == u + s && Ends(r) && Ends(s)
    ensures t == u && r == s
  {
    if |t| < |u| {
      LongerTokenRunsOn(t, u, r, s);
    } else if |u| < |t| {
      LongerTokenRunsOn(u, t, s, r);
    }
    assert t == (t + r)[..|t|] && u == (u + s)[..|u|];
    assert r == (t + r)[|t|..] && s == (u + s)[|u|..];
  }

  /** The kind of a printed value shows in its first unit. */
  function Lead(v: Js): CodeUnit
    requires Plain(v)
  {
    match v
    case Null => 0x6E
    case Bool(b) => if b then 0x74 else 0x66
    case Num(_) => 0x30
    case Str(_) => QUOTE
    case Arr(_) => OPEN_BRACKET
    case Obj(_) => OPEN_BRACE
  }

  lemma PrintedLead(v: Js, r: Text)
    requires Plain(v)
    ensures var a := Print(v) + r;
      && a != [] && a[0] != CLOSE_BRACKET
      && (if v.Num? then IsDigit(a[0]) || a[0] == 0x2D else a[0] == Lead(v))
  {
  }

  predicate SameShape(v: Js, w: Js) {
    match v
    case Null => w.Null?
    case Bool(b) => w == v
    case Num(_) => w.Num?
    case Str(_) => w.Str?
    case Arr(_) => w.Arr?
    case Obj(_) => w.Obj?
    case _ => false
  }

  lemma LeadTellsShape(v: Js, w: Js, r: Text, s: Text)
    requires Plain(v) && Plain(w) && Print(v) + r == Print(w) + s
    ensures SameShape(v, w)
  {
    PrintedLead(v, r);
    PrintedLead(w, s);
  }

  lemma WithoutLead(c: CodeUnit, p: Text, q: Text, r: Text, s: Text)
    requires [c] + p + r == [c] + q + s
    ensures p + r == q + s
  {
    assert p + r == ([c] + p + r)[1..] && q + s == ([c] + q + s)[1..];
  }

  /** JSON text is unambiguous: a printed value, followed by what may follow it, is that value. */
  lemma {:induction false} PrintIsDelimited(v: Js, w: Js, r: Text, s: Text)
    requires Plain(v) && Plain(w) && Ends(r) && Ends(s) && Print(v) + r == Print(w) + s
    ensures v == w && r == s
    decreases v
  {
    LeadTellsShape(v, w, r, s);
    match v
    case Num(n) => TokenIsDelimited(n.token, w.number.token, r, s);
    case Str(t) => QuoteIsDelimited(t, w.text, r, s);
    case Arr(items) =>
      WithoutLead(OPEN_BRACKET, PrintItems(items, true), PrintItems(w.items, true), r, s);
      ItemsAreDelimited(items, w.items, true, r, s);
    case Obj(fields) =>
      WithoutLead(OPEN_BRACE, PrintFields(fields, true), PrintFields(w.fields, true), r, s);
      FieldsAreDelimited(fields, w.fields, true, r, s);
    case Null => SameTextSameRest(Print(v), r, s);
    case Bool(_) => SameTextSameRest(Print(v), r, s);
  }

  lemma ItemsLead(xs: seq<Js>, first: bool, r: Text)
    requires PlainItems(xs)
    ensures var a := PrintItems(xs, first) + r;
      && a != [] && (a[0] == CLOSE_BRACKET <==> xs == []) && (xs == [] ==> a[1..] == r)
      && (!first ==> Ends(a)) && (!first && xs != [] ==> a[0] == COMMA)
  {
    if xs != [] && first {
      PrintedLead(xs[0], PrintItems(xs[1..], false) + r);
      assert PrintItems(xs, first) + r == Print(xs[0]) + (PrintItems(xs[1..], false) + r);
    }
  }

  lemma ItemsSplit(xs: seq<Js>, first: bool, r: Text)
    requires PlainItems(xs) && xs != []
    ensures var a := PrintItems(xs, first) + r; var k := if first then 0 else 1;
      k <= |a| && a[k..] == Print(xs[0]) + (PrintItems(xs[1..], false) + r)
  {
  }

  lemma {:induction false} ItemsAreDelimited(xs: seq<Js>, ys: seq<Js>, first: bool, r: Text, s: Text)
    requires PlainItems(xs) && PlainItems(ys) && PrintItems(xs, first) + r == PrintItems(ys, first) + s
    ensures xs == ys && r == s
    decreases xs
  {
    ItemsLead(xs, first, r);
    ItemsLead(ys, first, s);
    if xs != [] {
      ItemsSplit(xs, first, r);
      ItemsSplit(ys, first, s);
      ItemsLead(xs[1..], false, r);
      ItemsLead(ys[1..], false, s);
      PrintIsDelimited(xs[0], ys[0], PrintItems(xs[1..], false) + r, PrintItems(ys[1..], false) + s);
      ItemsAreDelimited(xs[1..], ys[1..], false, r, s);
      assert xs == [xs[0]] + xs[1..] && ys == [ys[0]] + ys[1..];
    }
  }

  lemma FieldsLead(fs: seq<Field>, first: bool, r: Text)
    requires PlainFields(fs)
    ensures var a := PrintFields(fs, first) + r;
      && a != [] && (a[0] == CLOSE_BRACE <==> fs == []) && (fs == [] ==> a[1..] == r)
      && (!first ==> Ends(a))
  {
  }

  lemma Regroup(x: Text, y: Text, r: Text)
    ensures (x + y) + r == x + (y + r)
  {
  }

  /** A printed field list, past its separator, is a quoted key, a colon, a value and the rest. */
  lemma FieldsSplit(fs: seq<Field>, first: bool, r: Text)
    requires PlainFields(fs) && fs != []
    ensures var a := PrintFields(fs, first) + r; var k := if first then 0 else 1;
      k <= |a| && a[k..] == Quote(fs[0].key) + ([COLON] + (Print(fs[0].value) + (PrintFields(fs[1..], false) + r)))
  {
    var q, p, m := Quote(fs[0].key), Print(fs[0].value), PrintFields(fs[1..], false);
    Regroup(p, m, r);
    Regroup([COLON], p + m, r);
    Regroup(q, [COLON] + (p + m), r);
    Regroup(if first then [] else [COMMA], q + ([COLON] + (p + m)), r);
  }

  lemma {:induction false} FieldsAreDelimited(fs: seq<Field>, gs: seq<Field>, first: bool, r: Text, s: Text)
    requires PlainFields(fs) && PlainFields(gs) && PrintFields(fs, first) + r == PrintFields(gs, first) + s
    ensures fs == gs && r == s
    decreases fs
  {
    FieldsLead(fs, first, r);
    FieldsLead(gs, first, s);
    if fs != [] {
      FieldsSplit(fs, first, r);
      FieldsSplit(gs, first, s);
      var p := Print(fs[0].value) + (PrintFields(fs[1..], false) + r);
      var q := Print(gs[0].value) + (PrintFields(gs[1..], false) + s);
      QuoteIsDelimited(fs[0].key, gs[0].key, [COLON] + p, [COLON] + q);
      assert p == ([COLON] + p)[1..] && q == ([COLON] + q)[1..];
      FieldsLead(fs[1..], false, r);
      FieldsLead(gs[1..], false, s);
      PrintIsDelimited(fs[0].value, gs[0].value, PrintFields(fs[1..], false) + r, PrintFields(gs[1..], false) + s);
      FieldsAreDelimited(fs[1..], gs[1..], false, r, s);
      assert fs == [fs[0]] + fs[1..] && gs == [gs[0]] + gs[1..];
    }
  }

  /** Different values have different texts. */
  lemma PrintIsInjective(v: Js, w: Js)
    requires Plain(v) && Plain(w) && Print(v) == Print(w)
    ensures v == w
  {
    assert Print(v) + [] == Print(w) + [];
    PrintIsDelimited(v, w, [], []);
  }
}
