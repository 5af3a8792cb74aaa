/** The idempotency key of an injection, and the identifiers derived from it. */
module InjectionKeys {
  import opened Options

  const SEPARATOR: char := '|'

  datatype KeyPart = EventIdPart | EventTimestampPart | PolicyVersionPart

  datatype KeyParts = KeyParts(eventId: string, eventTimestamp: string, policyVersion: string)

  /** The first part that is empty or contains the separator; None for a key that is no triple. */
  datatype KeyError = BadPart(part: KeyPart, value: string) | NotATriple(key: string)

  predicate ValidPart(value: string) {
    value != [] && SEPARATOR !in value
  }

  predicate ValidParts(p: KeyParts) {
    ValidPart(p.eventId) && ValidPart(p.eventTimestamp) && ValidPart(p.policyVersion)
  }

  function DeriveIdempotencyKey(p: KeyParts): Result<string, KeyError> {
    if !ValidPart(p.eventId) then Err(BadPart(EventIdPart, p.eventId))
    else if !ValidPart(p.eventTimestamp) then Err(BadPart(EventTimestampPart, p.eventTimestamp))
    else if !ValidPart(p.policyVersion) then Err(BadPart(PolicyVersionPart, p.policyVersion))
    else Ok(p.eventId + [SEPARATOR] + p.eventTimestamp + [SEPARATOR] + p.policyVersion)
  }

  /** The segments between separators; always at least one. */
  function Split(s: string): (segments: seq<string>)
    ensures segments != []
  {
    if s == [] then [[]]
    else
      var rest := Split(s[1..]);
      if s[0] == SEPARATOR then [[]] + rest else [[s[0]] + rest[0]] + rest[1..]
  }

  function ParseIdempotencyKey(key: string): Option<KeyParts> {
    var segments := Split(key);
    if |segments| != 3 || segments[0] == [] || segments[1] == [] || segments[2] == [] then None
    else Some(KeyParts(segments[0], segments[1], segments[2]))
  }

  lemma {:induction false} SplitPlain(s: string)
    requires SEPARATOR !in s
    ensures Split(s) == [s]
  {
    if s != [] {
      SplitPlain(s[1..]);
      assert s == [s[0]] + s[1..];
    }
  }

  lemma {:induction false} SplitAtSeparator(a: string, rest: string)
    requires SEPARATOR !in a
    ensures Split(a + [SEPARATOR] + rest) == [a] + Split(rest)
  {
    var s := a + [SEPARATOR] + rest;
    if a == [] {
      assert s[1..] == rest;
    } else {
      SplitAtSeparator(a[1..], rest);
      assert s[1..] == a[1..] + [SEPARATOR] + rest;
      assert a == [a[0]] + a[1..];
    }
  }

  function Join(segments: seq<string>): string
    requires segments != []
  {
    if |segments| == 1 then segments[0] else segments[0] + [SEPARATOR] + Join(segments[1..])
  }

  /** Splitting loses nothing. */
  lemma {:induction false} JoinInvertsSplit(s: string)
    ensures Join(Split(s)) == s
    ensures forall i :: 0 <= i < |Split(s)| ==> SEPARATOR !in Split(s)[i]
  {
    if s != [] {
      JoinInvertsSplit(s[1..]);
      var segments := Split(s[1..]);
      assert s == [s[0]] + s[1..];
      if s[0] == SEPARATOR {
        assert ([[]] + segments)[1..] == segments;
      } else {
        JoinFirst(s[0], segments);
      }
    }
  }

  lemma JoinFirst(c: char, segments: seq<string>)
    requires segments != []
    ensures Join([[c] + segments[0]] + segments[1..]) == [c] + Join(segments)
  {
    assert ([[c] + segments[0]] + segments[1..])[1..] == segments[1..];
    if |segments| > 1 {
      assert ([c] + segments[0]) + [SEPARATOR] + Join(segments[1..])
        == [c] + (segments[0] + [SEPARATOR] + Join(segments[1..]));
    }
  }

  /** Parsing inverts deriving, on all valid parts. */
  lemma ParseInvertsDerive(p: KeyParts)
    ensures DeriveIdempotencyKey(p).Ok? <==> ValidParts(p)
    ensures ValidParts(p) ==> ParseIdempotencyKey(DeriveIdempotencyKey(p).value) == Some(p)
  {
    if ValidParts(p) {
      var tail := p.eventTimestamp + [SEPARATOR] + p.policyVersion;
      assert p.eventId + [SEPARATOR] + p.eventTimestamp + [SEPARATOR] + p.policyVersion
        == p.eventId + [SEPARATOR] + tail;
      SplitAtSeparator(p.eventId, tail);
      SplitAtSeparator(p.eventTimestamp, p.policyVersion);
      SplitPlain(p.policyVersion);
    }
  }

  /** Deriving inverts parsing, on all parseable keys. */
  lemma DeriveInvertsParse(key: string)
    requires ParseIdempotencyKey(key).Some?
    ensures DeriveIdempotencyKey(ParseIdempotencyKey(key).value) == Ok(key)
  {
    JoinInvertsSplit(key);
    var p := ParseIdempotencyKey(key).value;
    JoinThree(p.eventId, p.eventTimestamp, p.policyVersion);
    assert Split(key) == [p.eventId, p.eventTimestamp, p.policyVersion];
  }

  lemma JoinThree(a: string, b: string, c: string)
    ensures Join([a, b, c]) == a + [SEPARATOR] + b + [SEPARATOR] + c
  {
    assert [a, b, c][1..] == [b, c] && [b, c][1..] == [c];
    assert Join([b, c]) == b + [SEPARATOR] + Join([c]);
    assert a + [SEPARATOR] + (b + [SEPARATOR] + c) == a + [SEPARATOR] + b + [SEPARATOR] + c;
  }

  /** A key that cannot be derived names its first unusable part, with the value it had. */
  lemma BadPartIff(p: KeyParts)
    ensures var e := p.eventId == "" || '|' in p.eventId; var t := p.eventTimestamp == "" || '|' in p.eventTimestamp;
      var v := p.policyVersion == "" || '|' in p.policyVersion; var key := DeriveIdempotencyKey(p);
      && (key == Err(BadPart(EventIdPart, p.eventId)) <==> e)
      && (key == Err(BadPart(EventTimestampPart, p.eventTimestamp)) <==> !e && t)
      && (key == Err(BadPart(PolicyVersionPart, p.policyVersion)) <==> !e && !t && v)
      && (key == Ok(p.eventId + "|" + p.eventTimestamp + "|" + p.policyVersion) <==> !e && !t && !v)
  {
  }

  /** A text that is no triple has no decision id. */
  lemma NoTripleNoDecision(key: string, digest: string -> string)
    requires IsDigest(digest, key)
    ensures DeriveDecisionId(key, digest) == Err(NotATriple(key)) <==>
      forall p :: ValidParts(p) ==> key != p.eventId + "|" + p.eventTimestamp + "|" + p.policyVersion
  {
    if ParseIdempotencyKey(key).Some? {
      DeriveInvertsParse(key);
      var p := ParseIdempotencyKey(key).value;
      ParseInvertsDerive(p);
      assert key == p.eventId + "|" + p.eventTimestamp + "|" + p.policyVersion;
    } else {
      forall p | ValidParts(p) ensures key != p.eventId + "|" + p.eventTimestamp + "|" + p.policyVersion {
        ParseInvertsDerive(p);
      }
    }
  }

  /** Two different triples never share a key. */
  lemma KeysAreDistinct(p: KeyParts, q: KeyParts)
    requires ValidParts(p) && ValidParts(q) && DeriveIdempotencyKey(p) == DeriveIdempotencyKey(q)
    ensures p == q
  {
    ParseInvertsDerive(p);
    ParseInvertsDerive(q);
  }

  // ----- Decision id --------------------------------------------------------

  const DIGEST_LENGTH := 12

  /** A hexadecimal digest of a text, long enough for every use of it here. */
  predicate IsDigest(digest: string -> string, s: string) {
    |digest(s)| >= 16 && forall i :: 0 <= i < |digest(s)| ==> IsHex(digest(s)[i])
  }

  predicate IsHex(c: char) {
    '0' <= c <= '9' || 'a' <= c <= 'f'
  }

  function DeriveDecisionId(key: string, digest: string -> string): Result<string, KeyError>
    requires IsDigest(digest, key)
  {
    var p := ParseIdempotencyKey(key);
    if p.None? then Err(NotATriple(key))
    else Ok("DEC_" + p.value.eventId + "_" + digest(key)[..DIGEST_LENGTH])
  }

  lemma SameSuffix(a: string, b: string, s: string, t: string)
    requires a + s == b + t && |s| == |t|
    ensures a == b && s == t
  {
    assert a == (a + s)[..|a|] && b == (b + t)[..|b|];
    assert s == (a + s)[|a|..] && t == (b + t)[|b|..];
  }

  /** The decision id of a derived key: the event, and the first 12 digits of the key's digest. */
  lemma DecisionIdShape(p: KeyParts, digest: string -> string)
    requires ValidParts(p) && IsDigest(digest, p.eventId + "|" + p.eventTimestamp + "|" + p.policyVersion)
    ensures var key := p.eventId + "|" + p.eventTimestamp + "|" + p.policyVersion;
      && DeriveIdempotencyKey(p) == Ok(key)
      && DeriveDecisionId(key, digest) == Ok("DEC_" + p.eventId + "_" + digest(key)[..12])
  {
    ParseInvertsDerive(p);
  }

  /** Two keys share a decision id exactly when they share the event and the digests' first 12 digits. */
  lemma DecisionIdsAgreeIff(k: string, l: string, digest: string -> string)
    requires IsDigest(digest, k) && IsDigest(digest, l)
    requires ParseIdempotencyKey(k).Some? && ParseIdempotencyKey(l).Some?
    ensures DeriveDecisionId(k, digest) == DeriveDecisionId(l, digest) <==>
      && ParseIdempotencyKey(k).value.eventId == ParseIdempotencyKey(l).value.eventId
      && digest(k)[..DIGEST_LENGTH] == digest(l)[..DIGEST_LENGTH]
  {
    var e, f := ParseIdempotencyKey(k).value.eventId, ParseIdempotencyKey(l).value.eventId;
    var s, t := digest(k)[..DIGEST_LENGTH], digest(l)[..DIGEST_LENGTH];
    if DeriveDecisionId(k, digest) == DeriveDecisionId(l, digest) {
      SameSuffix("DEC_" + e + "_", "DEC_" + f + "_", s, t);
      SameSuffix("DEC_" + e, "DEC_" + f, "_", "_");
      assert e == ("DEC_" + e)[4..] && f == ("DEC_" + f)[4..];
    }
  }

  // ----- Execution name -----------------------------------------------------

  const MAX_NAME_LENGTH := 80
  const NAME_DIGEST_LENGTH := 16

  predicate IsLegal(c: char) {
    'a' <= c <= 'z' || 'A' <= c <= 'Z' || '0' <= c <= '9' || c == '_' || c == '-'
  }

  predicate AllLegal(s: string) {
    forall i :: 0 <= i < |s| ==> IsLegal(s[i])
  }

  function ReplaceIllegal(s: string): (t: string)
    ensures AllLegal(t)
  {
    seq(|s|, i requires 0 <= i < |s| => if IsLegal(s[i]) then s[i] else '_')
  }

  function CollapseRuns(s: string): (t: string)
    ensures AllLegal(s) ==> AllLegal(t)
  {
    if |s| < 2 then s
    else if s[0] == '_' && s[1] == '_' then CollapseRuns(s[1..])
    else [s[0]] + CollapseRuns(s[1..])
  }

  function TrimStart(s: string): (t: string)
    ensures AllLegal(s) ==> AllLegal(t)
  {
    if s != [] && s[0] == '_' then TrimStart(s[1..]) else s
  }

  function TrimEnd(s: string): (t: string)
    ensures AllLegal(s) ==> AllLegal(t)
  {
    if s != [] && s[|s| - 1] == '_' then TrimEnd(s[..|s| - 1]) else s
  }

  function SanitizeSegment(s: string): (t: string)
    ensures AllLegal(t)
  {
    TrimEnd(TrimStart(CollapseRuns(ReplaceIllegal(s))))
  }

  predicate NoRuns(s: string) {
    forall i :: 0 <= i < |s| - 1 ==> s[i] != '_' || s[i + 1] != '_'
  }

  lemma {:induction false} CollapseLeavesNoRuns(s: string)
    ensures NoRuns(CollapseRuns(s)) && (s != [] ==> CollapseRuns(s) != [] && CollapseRuns(s)[0] == s[0])
  {
    if |s| >= 2 {
      CollapseLeavesNoRuns(s[1..]);
    }
  }

  lemma {:induction false} TrimStartTrims(s: string)
    requires NoRuns(s)
    ensures NoRuns(TrimStart(s)) && (TrimStart(s) != [] ==> TrimStart(s)[0] != '_')
  {
    if s != [] && s[0] == '_' {
      TrimStartTrims(s[1..]);
    }
  }

  lemma {:induction false} TrimEndTrims(s: string)
    requires NoRuns(s) && (s != [] ==> s[0] != '_')
    ensures var t := TrimEnd(s); NoRuns(t) && (t != [] ==> t[0] != '_' && t[|t| - 1] != '_')
  {
    if s != [] && s[|s| - 1] == '_' {
      TrimEndTrims(s[..|s| - 1]);
    }
  }

  /** A sanitized segment is legal, has no run of underscores and neither begins nor ends with one. */
  lemma SanitizedIsTidy(s: string)
    ensures var t := SanitizeSegment(s); AllLegal(t) && NoRuns(t) && (t != [] ==> t[0] != '_' && t[|t| - 1] != '_')
  {
    CollapseLeavesNoRuns(ReplaceIllegal(s));
    TrimStartTrims(CollapseRuns(ReplaceIllegal(s)));
    TrimEndTrims(TrimStart(CollapseRuns(ReplaceIllegal(s))));
  }

  // ----- What sanitizing keeps ----------------------------------------------

  predicate InWord(c: char) {
    IsLegal(c) && c != '_'
  }

  /** The longest stretches of legal characters other than the underscore, in order. */
  function Words(s: string): (words: seq<string>)
    ensures s != [] && InWord(s[0]) ==> words != [] && words[0] != []
  {
    if s == [] then []
    else if !InWord(s[0]) then Words(s[1..])
    else if |s| == 1 || !InWord(s[1]) then [[s[0]]] + Words(s[1..])
    else
      var rest := Words(s[1..]);
      [[s[0]] + rest[0]] + rest[1..]
  }

  /** The words with one underscore between any two. */
  function JoinWords(words: seq<string>): string {
    if words == [] then ""
    else if |words| == 1 then words[0]
    else words[0] + "_" + JoinWords(words[1..])
  }

  lemma {:induction false} ReplaceKeepsWords(s: string)
    ensures Words(ReplaceIllegal(s)) == Words(s)
  {
    if s != [] {
      ReplaceKeepsWords(s[1..]);
      assert ReplaceIllegal(s)[1..] == ReplaceIllegal(s[1..]);
    }
  }

  lemma {:induction false} CollapseKeepsWords(s: string)
    ensures Words(CollapseRuns(s)) == Words(s)
  {
    if |s| >= 2 {
      CollapseKeepsWords(s[1..]);
      CollapseLeavesNoRuns(s[1..]);
      var t := CollapseRuns(s[1..]);
      assert ([s[0]] + t)[1..] == t;
    }
  }

  lemma {:induction false} TrimStartKeepsWords(s: string)
    ensures Words(TrimStart(s)) == Words(s)
  {
    if s != [] && s[0] == '_' {
      TrimStartKeepsWords(s[1..]);
    }
  }

  lemma {:induction false} LastUnderscoreIsNoWord(s: string)
    ensures Words(s + "_") == Words(s)
  {
    if s != [] {
      LastUnderscoreIsNoWord(s[1..]);
      assert (s + "_")[1..] == s[1..] + "_";
    } else {
      assert s + "_" == "_" && "_"[1..] == "";
    }
  }

  lemma {:induction false} TrimEndKeepsWords(s: string)
    ensures Words(TrimEnd(s)) == Words(s)
  {
    if s != [] && s[|s| - 1] == '_' {
      TrimEndKeepsWords(s[..|s| - 1]);
      LastUnderscoreIsNoWord(s[..|s| - 1]);
      assert s == s[..|s| - 1] + "_";
    }
  }

  lemma JoinLonger(c: char, words: seq<string>)
    requires words != []
    ensures JoinWords([[c] + words[0]] + words[1..]) == [c] + JoinWords(words)
  {
    assert ([[c] + words[0]] + words[1..])[1..] == words[1..];
    if |words| > 1 {
      assert ([c] + words[0]) + "_" + JoinWords(words[1..]) == [c] + (words[0] + "_" + JoinWords(words[1..]));
    }
  }

  /** A tidy segment is its words and nothing else. */
  lemma {:induction false} TidyIsWords(t: string)
    requires AllLegal(t) && NoRuns(t) && (t != [] ==> t[0] != '_' && t[|t| - 1] != '_')
    ensures JoinWords(Words(t)) == t
    decreases |t|
  {
    if |t| == 1 {
      assert t[1..] == [] && Words(t) == [[t[0]]];
    } else if |t| > 1 {
      assert t == [t[0]] + t[1..];
      if InWord(t[1]) {
        TidyIsWords(t[1..]);
        JoinLonger(t[0], Words(t[1..]));
      } else {
        var rest := t[2..];
        assert t[1] == '_' && t[1..] == ['_'] + rest && |rest| > 0;
        TidyIsWords(rest);
        assert t[1..][1..] == rest && Words(t[1..]) == Words(rest);
        assert ([[t[0]]] + Words(rest))[1..] == Words(rest);
      }
    }
  }

  /** Sanitizing keeps every word of the text, in order, and puts one underscore between any two. */
  lemma SanitizedIsItsWords(s: string)
    ensures SanitizeSegment(s) == JoinWords(Words(s))
  {
    var r := ReplaceIllegal(s);
    var c := CollapseRuns(r);
    ReplaceKeepsWords(s);
    CollapseKeepsWords(r);
    TrimStartKeepsWords(c);
    TrimEndKeepsWords(TrimStart(c));
    SanitizedIsTidy(s);
    TidyIsWords(SanitizeSegment(s));
  }

  /** The largest integers are printed with an exponent, and then with a plus sign. */
  const EXPONENT_FROM: int := 1_000_000_000_000_000_000_000

  /** How a positive integer is printed: at most 21 digits, or with an exponent. */
  predicate IsPrinted(s: string, n: int) {
    && (1 <= n < EXPONENT_FROM ==> 1 <= |s| <= 21 && forall i :: 0 <= i < |s| ==> '0' <= s[i] <= '9')
    && (n >= EXPONENT_FROM ==> '+' in s)
  }

  datatype NameError = NameEmptyKey | BadAttempt | NotLegal(name: string)

  function NameSuffix(key: string, attempt: int, digest: string -> string, show: int -> string): string
    requires IsDigest(digest, key + "#" + show(attempt))
  {
    "-a" + show(attempt) + "-" + digest(key + "#" + show(attempt))[..NAME_DIGEST_LENGTH]
  }

  function DeriveExecutionName(key: string, attempt: int, digest: string -> string, show: int -> string)
    : Result<string, NameError>
    requires IsDigest(digest, key + "#" + show(attempt))
  {
    if key == "" then Err(NameEmptyKey)
    else if attempt < 1 then Err(BadAttempt)
    else
      var suffix := NameSuffix(key, attempt, digest, show);
      var budget := MAX_NAME_LENGTH - 4 - |suffix|;
      var readable := SanitizeSegment(key);
      var shown := if budget <= 0 then "" else if |readable| <= budget then readable else readable[..budget];
      var name := "dec-" + shown + suffix;
      if 1 <= |name| <= MAX_NAME_LENGTH && AllLegal(name) then Ok(name) else Err(NotLegal(name))
  }

  lemma DigestIsLegal(digest: string -> string, s: string)
    requires IsDigest(digest, s)
    ensures AllLegal(digest(s)[..NAME_DIGEST_LENGTH])
  {
  }

  lemma SuffixIsLegal(key: string, attempt: int, digest: string -> string, show: int -> string)
    requires IsDigest(digest, key + "#" + show(attempt)) && IsPrinted(show(attempt), attempt)
    requires 1 <= attempt < EXPONENT_FROM
    ensures var s := NameSuffix(key, attempt, digest, show); AllLegal(s) && |s| <= 40
  {
    DigestIsLegal(digest, key + "#" + show(attempt));
  }

  /** An execution name is derived exactly for a key and an attempt below 10^21. */
  lemma NameExistsIff(key: string, attempt: int, digest: string -> string, show: int -> string)
    requires IsDigest(digest, key + "#" + show(attempt)) && IsPrinted(show(attempt), attempt)
    ensures DeriveExecutionName(key, attempt, digest, show).Ok? <==> key != "" && 1 <= attempt < EXPONENT_FROM
  {
    if key != "" && attempt >= 1 {
      if attempt < EXPONENT_FROM {
        SuffixIsLegal(key, attempt, digest, show);
      } else {
        var s := show(attempt);
        var i :| 0 <= i < |s| && s[i] == '+';
        PlusInSuffix(key, attempt, digest, show, i);
      }
    }
  }

  /** Why there is no name: no key, no attempt, or an attempt that is printed with an exponent. */
  lemma NameErrorIff(key: string, attempt: int, digest: string -> string, show: int -> string)
    requires IsDigest(digest, key + "#" + show(attempt)) && IsPrinted(show(attempt), attempt)
    ensures var name := DeriveExecutionName(key, attempt, digest, show);
      && (name == Err(NameEmptyKey) <==> key == "")
      && (name == Err(BadAttempt) <==> key != "" && attempt < 1)
      && (name.Err? && name.error.NotLegal? <==> key != "" && attempt >= EXPONENT_FROM)
  {
    NameExistsIff(key, attempt, digest, show);
  }

  lemma IllegalEnd(p: string, s: string, i: nat)
    requires i < |s| && !IsLegal(s[i])
    ensures !AllLegal(p + s)
  {
    assert (p + s)[|p| + i] == s[i];
  }

  lemma PlusInSuffix(key: string, attempt: int, digest: string -> string, show: int -> string, i: nat)
    requires IsDigest(digest, key + "#" + show(attempt)) && i < |show(attempt)| && show(attempt)[i] == '+'
    requires key != "" && attempt >= 1
    ensures DeriveExecutionName(key, attempt, digest, show).Err?
  {
    var suffix := NameSuffix(key, attempt, digest, show);
    assert suffix[2 + i] == '+';
    var budget := MAX_NAME_LENGTH - 4 - |suffix|;
    var readable := SanitizeSegment(key);
    var shown := if budget <= 0 then "" else if |readable| <= budget then readable else readable[..budget];
    IllegalEnd("dec-" + shown, suffix, 2 + i);
  }

  /**
   What a name shows: as much of the sanitized key as 80 characters leave room for, the attempt, and the
   first 16 digits of the digest of both.
   */
  lemma NameShape(key: string, attempt: int, digest: string -> string, show: int -> string) returns (shown: string)
    requires IsDigest(digest, key + "#" + show(attempt)) && IsPrinted(show(attempt), attempt)
    requires DeriveExecutionName(key, attempt, digest, show).Ok?
    ensures var name := DeriveExecutionName(key, attempt, digest, show).value;
      && name == "dec-" + shown + ("-a" + show(attempt) + "-" + digest(key + "#" + show(attempt))[..16])
      && shown <= SanitizeSegment(key) && |name| <= 80
      && (shown == SanitizeSegment(key) || |name| == 80)
  {
    NameExistsIff(key, attempt, digest, show);
    SuffixIsLegal(key, attempt, digest, show);
    var budget := MAX_NAME_LENGTH - 4 - |NameSuffix(key, attempt, digest, show)|;
    var readable := SanitizeSegment(key);
    shown := if |readable| <= budget then readable else readable[..budget];
  }

  /** The name tells the attempt: the same name means the same printed attempt, whatever the key. */
  lemma NameTellsAttempt(k: string, m: int, l: string, n: int, digest: string -> string, show: int -> string)
    requires IsDigest(digest, k + "#" + show(m)) && IsDigest(digest, l + "#" + show(n))
    requires IsPrinted(show(m), m) && IsPrinted(show(n), n)
    requires DeriveExecutionName(k, m, digest, show).Ok?
    requires DeriveExecutionName(k, m, digest, show) == DeriveExecutionName(l, n, digest, show)
    ensures show(m) == show(n)
  {
    NameExistsIff(k, m, digest, show);
    NameExistsIff(l, n, digest, show);
    var a, d := NameBody(k, m, digest, show);
    var b, e := NameBody(l, n, digest, show);
    SameSuffix(a + "-a" + show(m) + "-", b + "-a" + show(n) + "-", d, e);
    SameSuffix(a + "-a" + show(m), b + "-a" + show(n), "-", "-");
    if |show(m)| < |show(n)| {
      LongerDigitsClash(a, show(m), b, show(n));
    } else if |show(n)| < |show(m)| {
      LongerDigitsClash(b, show(n), a, show(m));
    }
    SameSuffix(a + "-a", b + "-a", show(m), show(n));
  }

  lemma NameBody(k: string, m: int, digest: string -> string, show: int -> string) returns (a: string, d: string)
    requires IsDigest(digest, k + "#" + show(m)) && DeriveExecutionName(k, m, digest, show).Ok?
    ensures |d| == NAME_DIGEST_LENGTH
    ensures DeriveExecutionName(k, m, digest, show).value == a + "-a" + show(m) + "-" + d
  {
    d := digest(k + "#" + show(m))[..NAME_DIGEST_LENGTH];
    var suffix := NameSuffix(k, m, digest, show);
    var name := DeriveExecutionName(k, m, digest, show).value;
    a := name[..|name| - |suffix|];
    assert name == a + suffix;
    assert a + "-a" + show(m) + "-" + d == a + suffix;
  }

  lemma LetterAt(a: string, s: string)
    ensures (a + "-a" + s)[|a| + 1] == 'a'
  {
  }

  lemma DigitAt(b: string, t: string, k: nat)
    requires |b| + 2 <= k < |b| + 2 + |t| && '0' <= t[k - |b| - 2] <= '9'
    ensures '0' <= (b + "-a" + t)[k] <= '9'
  {
  }

  /** Digits cannot reach back over the letter in front of shorter digits. */
  lemma LongerDigitsClash(a: string, s: string, b: string, t: string)
    requires |s| < |t| && forall i :: 0 <= i < |t| ==> '0' <= t[i] <= '9'
    ensures a + "-a" + s != b + "-a" + t
  {
    LetterAt(a, s);
    if |a + "-a" + s| == |b + "-a" + t| {
      DigitAt(b, t, |a| + 1);
    }
  }
}
