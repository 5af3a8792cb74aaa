/** Reading JSON text back, as RFC 8259 says it is read, undoes printing. */
module JsonReader {
  import opened Options
  import opened Json
  import opened Canonical
  import opened CanonicalForm

  // ----- Strings (section 7) ------------------------------------------------

  function HexValue(c: CodeUnit): (r: Option<int>)
    ensures r.Some? ==> 0 <= r.value < 16
  {
    if 0x30 <= c <= 0x39 then Some(c as int - 0x30)
    else if 0x61 <= c <= 0x66 then Some(c as int - 0x61 + 10)
    else if 0x41 <= c <= 0x46 then Some(c as int - 0x41 + 10)
    else None
  }

  /** The code unit that four hexadecimal digits name. */
  function FromHex4(t: Text): (r: Option<CodeUnit>)
    requires |t| == 4
  {
    var a, b, c, d := HexValue(t[0]), HexValue(t[1]), HexValue(t[2]), HexValue(t[3]);
    if a.Some? && b.Some? && c.Some? && d.Some?
    then Some((a.value * 0x1000 + b.value * 0x100 + c.value * 0x10 + d.value) as CodeUnit)
    else None
  }

  /** What a letter after a backslash stands for. */
  const TWO_UNIT_ESCAPES: map<CodeUnit, CodeUnit> := map[
    0x22 := 0x22, 0x5C := 0x5C, 0x2F := 0x2F, 0x62 := 0x08, 0x66 := 0x0C, 0x6E := 0x0A, 0x72 := 0x0D, 0x74 := 0x09]

  /** The first character of a string's text, and what follows it. */
  function ReadUnit(t: Text): (p: Option<(CodeUnit, Text)>)
    ensures p.Some? ==> |p.value.1| < |t|
  {
    if t == [] || t[0] == QUOTE || t[0] < 0x20 then None
    else if t[0] != BACKSLASH then Some((t[0], t[1..]))
    else if |t| >= 2 && t[1] in TWO_UNIT_ESCAPES then Some((TWO_UNIT_ESCAPES[t[1]], t[2..]))
    else if |t| >= 6 && t[1] == 0x75 && FromHex4(t[2..6]).Some? then Some((FromHex4(t[2..6]).value, t[6..]))
    else None
  }

  /** The text up to the closing quote, and what follows that. */
  function ReadString(t: Text): (p: Option<(Text, Text)>)
    ensures p.Some? ==> |p.value.1| < |t|
    decreases |t|
  {
    if t == [] then None
    else if t[0] == QUOTE then Some(([], t[1..]))
    else
      var first := ReadUnit(t);
      if first.None? then None
      else
        var rest := ReadString(first.value.1);
        if rest.None? then None else Some(([first.value.0] + rest.value.0, rest.value.1))
  }

  // ----- Numbers and values (sections 3 to 6) -------------------------------

  /** How far a number reaches. */
  function NumberLength(t: Text): (n: nat)
    ensures n <= |t|
  {
    if t == [] || !IsNumberUnit(t[0]) then 0 else 1 + NumberLength(t[1..])
  }

  function ReadValue(t: Text): (p: Option<(Js, Text)>)
    ensures p.Some? ==> |p.value.1| < |t|
    decreases |t|, 0
  {
    if t == [] then None
    else if t[0] == QUOTE then
      var s := ReadString(t[1..]);
      if s.Some? then Some((Str(s.value.0), s.value.1)) else None
    else if t[0] == OPEN_BRACKET then
      if |t| >= 2 && t[1] == CLOSE_BRACKET then Some((Arr([]), t[2..]))
      else
        var items := ReadItems(t[1..]);
        if items.Some? then Some((Arr(items.value.0), items.value.1)) else None
    else if t[0] == OPEN_BRACE then
      if |t| >= 2 && t[1] == CLOSE_BRACE then Some((Obj([]), t[2..]))
      else
        var fields := ReadFields(t[1..]);
        if fields.Some? then Some((Obj(fields.value.0), fields.value.1)) else None
    else if Ascii("null") <= t then Some((Null, t[4..]))
    else if Ascii("true") <= t then Some((Bool(true), t[4..]))
    else if Ascii("false") <= t then Some((Bool(false), t[5..]))
    else
      var n := NumberLength(t);
      if IsToken(t[..n]) then Some((Num(Finite(t[..n])), t[n..])) else None
  }

  /** Values separated by commas, up to and including the closing bracket. */
  function ReadItems(t: Text): (p: Option<(seq<Js>, Text)>)
    ensures p.Some? ==> |p.value.1| < |t|
    decreases |t|, 1
  {
    var first := ReadValue(t);
    if first.None? || first.value.1 == [] then None
    else
      var v, rest := first.value.0, first.value.1;
      if rest[0] == CLOSE_BRACKET then Some(([v], rest[1..]))
      else if rest[0] != COMMA then None
      else
        var more := ReadItems(rest[1..]);
        if more.Some? then Some(([v] + more.value.0, more.value.1)) else None
  }

  /** A quoted key, a colon and a value. */
  function ReadField(t: Text): (p: Option<(Field, Text)>)
    ensures p.Some? ==> |p.value.1| < |t|
    decreases |t|, 1
  {
    if t == [] || t[0] != QUOTE then None
    else
      var key := ReadString(t[1..]);
      if key.None? || key.value.1 == [] || key.value.1[0] != COLON then None
      else
        var v := ReadValue(key.value.1[1..]);
        if v.Some? then Some((Field(key.value.0, v.value.0), v.value.1)) else None
  }

  function ReadFields(t: Text): (p: Option<(seq<Field>, Text)>)
    ensures p.Some? ==> |p.value.1| < |t|
    decreases |t|, 2
  {
    var first := ReadField(t);
    if first.None? || first.value.1 == [] then None
    else
      var f, rest := first.value.0, first.value.1;
      if rest[0] == CLOSE_BRACE then Some(([f], rest[1..]))
      else if rest[0] != COMMA then None
      else
        var more := ReadFields(rest[1..]);
        if more.Some? then Some(([f] + more.value.0, more.value.1)) else None
  }

  // ----- Reading undoes printing --------------------------------------------

  lemma HexDigitRead(d: int)
    requires 0 <= d < 16
    ensures HexValue(HexDigit(d)) == Some(d) && HexDigit(d) == Ascii("0123456789abcdef")[d]
  {
  }

  lemma Hex4Read(n: int)
    requires 0 <= n < 0x1_0000
    ensures FromHex4(Hex4(n)) == Some(n as CodeUnit)
  {
    HexDigitRead(n / 16 / 16 / 16);
    HexDigitRead(n / 16 / 16 % 16);
    HexDigitRead(n / 16 % 16);
    HexDigitRead(n % 16);
  }

  /**
   What is printed for a code unit outside a pair: itself wherever JSON allows that, the two-unit escape
   where there is one, and lower-case hexadecimal digits otherwise.
   */
  lemma EscapeForm(c: CodeUnit)
    ensures var plain := c >= 0x20 && c != QUOTE && c != BACKSLASH && !IsHigh(c) && !IsLow(c);
      var short := exists u :: u in TWO_UNIT_ESCAPES && TWO_UNIT_ESCAPES[u] == c;
      && (EscapeUnit(c) == [c] <==> plain)
      && (|EscapeUnit(c)| == 2 <==> !plain && short)
      && (!plain && !short ==> EscapeUnit(c) == [BACKSLASH, 0x75] + Hex4(c as int))
  {
    var m := TWO_UNIT_ESCAPES;
    assert forall u :: u in m <==> u in {0x22, 0x5C, 0x2F, 0x62, 0x66, 0x6E, 0x72, 0x74};
    assert m[0x22] == 0x22 && m[0x5C] == 0x5C && m[0x62] == 0x08 && m[0x66] == 0x0C;
    assert m[0x6E] == 0x0A && m[0x72] == 0x0D && m[0x74] == 0x09 && m[0x2F] == 0x2F;
  }

  /** A printed code unit is read as that code unit. */
  lemma UnitRead(c: CodeUnit, r: Text)
    ensures ReadUnit(EscapeUnit(c) + r) == Some((c, r))
    ensures (EscapeUnit(c) + r)[0] != QUOTE
  {
    var e := EscapeUnit(c);
    var t := e + r;
    assert t[0] == e[0] && t[|e|..] == r;
    if |e| == 2 {
      assert t[1] == e[1];
    } else if |e| == 6 {
      assert t[1] == e[1] && t[2..6] == Hex4(c as int);
      Hex4Read(c as int);
    }
  }

  /** A printed surrogate pair is read as the pair. */
  lemma PairRead(t: Text, r: Text)
    requires StartsWithPair(t)
    ensures ReadUnit(t[..2] + r) == Some((t[0], [t[1]] + r))
    ensures ReadUnit([t[1]] + r) == Some((t[1], r))
  {
    assert (t[..2] + r)[1..] == [t[1]] + r && ([t[1]] + r)[1..] == r;
  }

  lemma StringStep(t: Text, c: CodeUnit, rest: Text, u: Text, r: Text)
    requires t != [] && t[0] != QUOTE && ReadUnit(t) == Some((c, rest)) && ReadString(rest) == Some((u, r))
    ensures ReadString(t) == Some(([c] + u, r))
  {
  }

  lemma SingleThenRest(t: Text, rest: Text, r: Text)
    requires t != [] && ReadString(rest) == Some((t[1..], r))
    ensures ReadString(EscapeUnit(t[0]) + rest) == Some((t, r))
  {
    UnitRead(t[0], rest);
    StringStep(EscapeUnit(t[0]) + rest, t[0], rest, t[1..], r);
    assert t == [t[0]] + t[1..];
  }

  lemma PairThenRest(t: Text, rest: Text, r: Text)
    requires StartsWithPair(t) && ReadString(rest) == Some((t[2..], r))
    ensures ReadString(t[..2] + rest) == Some((t, r))
  {
    PairRead(t, rest);
    StringStep([t[1]] + rest, t[1], rest, t[2..], r);
    StringStep(t[..2] + rest, t[0], [t[1]] + rest, [t[1]] + t[2..], r);
    assert t == [t[0]] + ([t[1]] + t[2..]);
  }

  lemma NothingThenQuote(r: Text)
    ensures ReadString(Escape([]) + [QUOTE] + r) == Some(([], r))
  {
    assert Escape([]) + [QUOTE] + r == [QUOTE] + r && ([QUOTE] + r)[1..] == r;
  }

  lemma PairSplits(t: Text, r: Text)
    requires StartsWithPair(t)
    ensures Escape(t) + [QUOTE] + r == t[..2] + (Escape(t[2..]) + [QUOTE] + r)
  {
  }

  lemma {:induction false} StringRead(t: Text, r: Text)
    ensures ReadString(Escape(t) + [QUOTE] + r) == Some((t, r))
    decreases |t|
  {
    if t == [] {
      NothingThenQuote(r);
    } else if StartsWithPair(t) {
      var rest := Escape(t[2..]) + [QUOTE] + r;
      StringRead(t[2..], r);
      PairThenRest(t, rest, r);
      PairSplits(t, r);
    } else {
      var rest := Escape(t[1..]) + [QUOTE] + r;
      StringRead(t[1..], r);
      SingleThenRest(t, rest, r);
      EscapeSingle(t, r);
    }
  }

  lemma {:induction false} NumberRead(t: Text, r: Text)
    requires (forall i :: 0 <= i < |t| ==> IsNumberUnit(t[i])) && Ends(r)
    ensures NumberLength(t + r) == |t|
  {
    if t == [] {
      assert t + r == r;
    } else {
      NumberRead(t[1..], r);
      assert (t + r)[1..] == t[1..] + r;
    }
  }

  lemma TokenRead(n: Token, r: Text)
    requires Ends(r)
    ensures ReadValue(n + r) == Some((Num(Finite(n)), r))
  {
    var t := n + r;
    NumberRead(n, r);
    assert t[0] == n[0] && t[..|n|] == n && t[|n|..] == r;
  }

  lemma LiteralRead(v: Js, r: Text)
    requires v.Null? || v.Bool?
    ensures ReadValue(Print(v) + r) == Some((v, r))
  {
    var p := Print(v);
    assert (p + r)[..|p|] == p && (p + r)[|p|..] == r && (p + r)[0] == p[0];
    assert Ascii("null") == [0x6E, 0x75, 0x6C, 0x6C];
    assert Ascii("true") == [0x74, 0x72, 0x75, 0x65];
    assert Ascii("false") == [0x66, 0x61, 0x6C, 0x73, 0x65];
  }

  lemma TextRead(s: Text, r: Text)
    ensures ReadValue(Quote(s) + r) == Some((Str(s), r))
  {
    StringRead(s, r);
    QuoteOpens(s, r);
    var inner := Escape(s) + [QUOTE] + r;
    assert ([QUOTE] + inner)[1..] == inner;
  }

  lemma EmptyArrayRead(r: Text)
    ensures ReadValue([OPEN_BRACKET, CLOSE_BRACKET] + r) == Some((Arr([]), r))
  {
    assert ([OPEN_BRACKET, CLOSE_BRACKET] + r)[2..] == r;
  }

  lemma ItemsInBrackets(inner: Text, items: seq<Js>, r: Text)
    requires inner != [] && inner[0] != CLOSE_BRACKET && ReadItems(inner) == Some((items, r))
    ensures ReadValue([OPEN_BRACKET] + inner) == Some((Arr(items), r))
  {
    assert ([OPEN_BRACKET] + inner)[1..] == inner;
  }

  lemma ArrayRead(items: seq<Js>, r: Text)
    requires PlainItems(items)
    requires items != [] ==> ReadItems(PrintItems(items, true) + r) == Some((items, r))
    ensures ReadValue(Print(Arr(items)) + r) == Some((Arr(items), r))
  {
    var inner := PrintItems(items, true) + r;
    ItemsLead(items, true, r);
    Regroup([OPEN_BRACKET], PrintItems(items, true), r);
    if items == [] {
      assert [OPEN_BRACKET] + inner == [OPEN_BRACKET, CLOSE_BRACKET] + r;
      EmptyArrayRead(r);
    } else {
      ItemsInBrackets(inner, items, r);
    }
  }

  lemma EmptyObjectRead(r: Text)
    ensures ReadValue([OPEN_BRACE, CLOSE_BRACE] + r) == Some((Obj([]), r))
  {
    assert ([OPEN_BRACE, CLOSE_BRACE] + r)[2..] == r;
  }

  lemma FieldsInBraces(inner: Text, fields: seq<Field>, r: Text)
    requires inner != [] && inner[0] != CLOSE_BRACE && ReadFields(inner) == Some((fields, r))
    ensures ReadValue([OPEN_BRACE] + inner) == Some((Obj(fields), r))
  {
    assert ([OPEN_BRACE] + inner)[1..] == inner;
  }

  lemma ObjectRead(fields: seq<Field>, r: Text)
    requires PlainFields(fields)
    requires fields != [] ==> ReadFields(PrintFields(fields, true) + r) == Some((fields, r))
    ensures ReadValue(Print(Obj(fields)) + r) == Some((Obj(fields), r))
  {
    var inner := PrintFields(fields, true) + r;
    FieldsLead(fields, true, r);
    Regroup([OPEN_BRACE], PrintFields(fields, true), r);
    if fields == [] {
      assert [OPEN_BRACE] + inner == [OPEN_BRACE, CLOSE_BRACE] + r;
      EmptyObjectRead(r);
    } else {
      FieldsInBraces(inner, fields, r);
    }
  }

  /** Whatever a value is followed by in a printed text, it is read back, and what follows is left. */
  lemma {:induction false} ValueRead(v: Js, r: Text)
    requires Plain(v) && Ends(r)
    ensures ReadValue(Print(v) + r) == Some((v, r))
    decreases v
  {
    match v
    case Num(n) => TokenRead(n.token, r);
    case Str(s) => TextRead(s, r);
    case Arr(items) =>
      if items != [] {
        ItemsRead(items, r);
      }
      ArrayRead(items, r);
    case Obj(fields) =>
      if fields != [] {
        FieldsRead(fields, r);
      }
      ObjectRead(fields, r);
    case Null => LiteralRead(v, r);
    case Bool(_) => LiteralRead(v, r);
  }

  lemma ItemsStep(t: Text, v: Js, rest: Text, more: seq<Js>, r: Text)
    requires ReadValue(t) == Some((v, rest)) && rest != []
    requires if more == [] then rest == [CLOSE_BRACKET] + r
             else rest[0] == COMMA && ReadItems(rest[1..]) == Some((more, r))
    ensures ReadItems(t) == Some(([v] + more, r))
  {
    if more == [] {
      assert rest[1..] == r && [v] + more == [v];
    }
  }

  lemma {:induction false} ItemsRead(xs: seq<Js>, r: Text)
    requires xs != [] && PlainItems(xs)
    ensures ReadItems(PrintItems(xs, true) + r) == Some((xs, r))
    decreases xs
  {
    var tail := xs[1..];
    var rest := PrintItems(tail, false) + r;
    ItemsSplit(xs, true, r);
    ItemsLead(tail, false, r);
    ValueRead(xs[0], rest);
    if tail != [] {
      ItemsRead(tail, r);
      ItemsSplit(tail, false, r);
      ItemsSplit(tail, true, r);
    }
    assert xs == [xs[0]] + tail;
    ItemsStep(PrintItems(xs, true) + r, xs[0], rest, tail, r);
  }

  lemma FieldsStep(t: Text, f: Field, rest: Text, more: seq<Field>, r: Text)
    requires ReadField(t) == Some((f, rest)) && rest != []
    requires if more == [] then rest == [CLOSE_BRACE] + r
             else rest[0] == COMMA && ReadFields(rest[1..]) == Some((more, r))
    ensures ReadFields(t) == Some(([f] + more, r))
  {
    if more == [] {
      assert rest[1..] == r && [f] + more == [f];
    }
  }

  lemma {:induction false} FieldsRead(fs: seq<Field>, r: Text)
    requires fs != [] && PlainFields(fs)
    ensures ReadFields(PrintFields(fs, true) + r) == Some((fs, r))
    decreases fs
  {
    var tail := fs[1..];
    var rest := PrintFields(tail, false) + r;
    FieldsSplit(fs, true, r);
    FieldsLead(tail, false, r);
    ValueRead(fs[0].value, rest);
    FieldRead(fs[0], rest);
    if tail != [] {
      FieldsRead(tail, r);
      FieldsSplit(tail, false, r);
      FieldsSplit(tail, true, r);
    }
    assert fs == [fs[0]] + tail;
    FieldsStep(PrintFields(fs, true) + r, fs[0], rest, tail, r);
  }

  lemma FieldParts(inner: Text, key: Text, t: Text, v: Js, r: Text)
    requires ReadString(inner) == Some((key, [COLON] + t)) && ReadValue(t) == Some((v, r))
    ensures ReadField([QUOTE] + inner) == Some((Field(key, v), r))
  {
    assert ([QUOTE] + inner)[1..] == inner && ([COLON] + t)[1..] == t;
  }

  lemma FieldRead(f: Field, r: Text)
    requires Plain(f.value) && ReadValue(Print(f.value) + r) == Some((f.value, r))
    ensures ReadField(Quote(f.key) + ([COLON] + (Print(f.value) + r))) == Some((f, r))
  {
    var t := Print(f.value) + r;
    StringRead(f.key, [COLON] + t);
    QuoteOpens(f.key, [COLON] + t);
    FieldParts(Escape(f.key) + [QUOTE] + ([COLON] + t), f.key, t, f.value, r);
  }

  // ----- Printed text can be encoded ----------------------------------------

  /** Every surrogate stands in a pair: the text has an encoding as UTF-8, and a different one for each text. */
  predicate WellPaired(t: Text) {
    if t == [] then true
    else if StartsWithPair(t) then WellPaired(t[2..])
    else !IsHigh(t[0]) && !IsLow(t[0]) && WellPaired(t[1..])
  }

  lemma {:induction false} PairedAppend(a: Text, b: Text)
    requires WellPaired(a) && WellPaired(b)
    ensures WellPaired(a + b)
    decreases |a|
  {
    if a == [] {
      assert a + b == b;
    } else if StartsWithPair(a) {
      PairedAppend(a[2..], b);
      assert (a + b)[2..] == a[2..] + b;
    } else {
      PairedAppend(a[1..], b);
      assert (a + b)[1..] == a[1..] + b;
    }
  }

  lemma {:induction false} NoSurrogates(t: Text)
    requires forall i :: 0 <= i < |t| ==> !IsHigh(t[i]) && !IsLow(t[i])
    ensures WellPaired(t)
  {
    if t != [] {
      NoSurrogates(t[1..]);
    }
  }

  lemma EscapedUnitPaired(c: CodeUnit)
    ensures WellPaired(EscapeUnit(c))
  {
    NoSurrogates(EscapeUnit(c));
  }

  lemma {:induction false} EscapedPaired(t: Text)
    ensures WellPaired(Escape(t))
    decreases |t|
  {
    if t != [] {
      if StartsWithPair(t) {
        EscapedPaired(t[2..]);
        assert t[..2][2..] == [] && WellPaired(t[..2]);
        PairedAppend(t[..2], Escape(t[2..]));
      } else {
        EscapedPaired(t[1..]);
        EscapedUnitPaired(t[0]);
        PairedAppend(EscapeUnit(t[0]), Escape(t[1..]));
      }
    }
  }

  lemma QuotedPaired(t: Text)
    ensures WellPaired(Quote(t))
  {
    EscapedPaired(t);
    NoSurrogates([QUOTE]);
    PairedAppend([QUOTE], Escape(t));
    PairedAppend([QUOTE] + Escape(t), [QUOTE]);
  }

  /** A printed value has no lone surrogate, whatever its texts hold. */
  lemma {:induction false} PrintedIsWellPaired(v: Js)
    requires Plain(v)
    ensures WellPaired(Print(v))
    decreases v
  {
    match v
    case Str(t) => QuotedPaired(t);
    case Arr(items) =>
      ItemsPaired(items, true);
      NoSurrogates([OPEN_BRACKET]);
      PairedAppend([OPEN_BRACKET], PrintItems(items, true));
    case Obj(fields) =>
      FieldsPaired(fields, true);
      NoSurrogates([OPEN_BRACE]);
      PairedAppend([OPEN_BRACE], PrintFields(fields, true));
    case Null => NoSurrogates(Print(v));
    case Bool(_) => NoSurrogates(Print(v));
    case Num(_) => NoSurrogates(Print(v));
  }

  lemma {:induction false} ItemsPaired(xs: seq<Js>, first: bool)
    requires PlainItems(xs)
    ensures WellPaired(PrintItems(xs, first))
    decreases xs
  {
    if xs == [] {
      NoSurrogates([CLOSE_BRACKET]);
    } else {
      var lead := if first then [] else [COMMA];
      PrintedIsWellPaired(xs[0]);
      ItemsPaired(xs[1..], false);
      NoSurrogates(lead);
      PairedAppend(lead, Print(xs[0]));
      PairedAppend(lead + Print(xs[0]), PrintItems(xs[1..], false));
    }
  }

  lemma {:induction false} FieldsPaired(fs: seq<Field>, first: bool)
    requires PlainFields(fs)
    ensures WellPaired(PrintFields(fs, first))
    decreases fs
  {
    if fs == [] {
      NoSurrogates([CLOSE_BRACE]);
    } else {
      var lead := if first then [] else [COMMA];
      var q, p, rest := Quote(fs[0].key), Print(fs[0].value), PrintFields(fs[1..], false);
      PrintedIsWellPaired(fs[0].value);
      FieldsPaired(fs[1..], false);
      QuotedPaired(fs[0].key);
      NoSurrogates(lead);
      NoSurrogates([COLON]);
      PairedAppend(p, rest);
      PairedAppend([COLON], p + rest);
      PairedAppend(q, [COLON] + (p + rest));
      PairedAppend(lead, q + ([COLON] + (p + rest)));
    }
  }

  /** The canonical text, read as JSON, is the normalized value and nothing more. */
  lemma CanonicalTextReads(v: Js, setLike: bool)
    requires Serialize(v, setLike).Some?
    ensures ReadValue(Serialize(v, setLike).value) == Some((Normalize(v, setLike).value, []))
  {
    NormalIsPlain(v, setLike);
    var n := Normalize(v, setLike).value;
    ValueRead(n, []);
    assert Print(n) + [] == Print(n);
  }
}
