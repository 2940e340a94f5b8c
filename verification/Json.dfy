/** Flat JSON claims as they are written, and what a scanner that is no parser
    reads back from them. Bytes are characters below 256. */
module Json {
  import opened Basics
  import opened Numerals

  // ── Text ───────────────────────────────────────────────────────────────

  function LowHex(n: nat): char
    requires n < 16
  {
    "0123456789abcdef"[n]
  }

  function EscapeChar(c: char): (t: string)
    ensures t != ""
  {
    if c == '\"' then ['\\', '\"']
    else if c == '\\' then ['\\', '\\']
    else if c == 8 as char then ['\\', 'b']
    else if c == 12 as char then ['\\', 'f']
    else if c == '\n' then ['\\', 'n']
    else if c == '\r' then ['\\', 'r']
    else if c == '\t' then ['\\', 't']
    else if c < 0x20 as char then ['\\', 'u', '0', '0', LowHex(c as int / 16), LowHex(c as int % 16)]
    else [c]
  }

  function Escape(s: string): string {
    if s == "" then "" else EscapeChar(s[0]) + Escape(s[1..])
  }

  function Quoted(s: string): string { ['\"'] + Escape(s) + ['\"'] }

  /** Nothing in it is escaped. */
  predicate RecordSafe(s: string) {
    forall i :: 0 <= i < |s| ==> s[i] != '\"' && s[i] != '\\' && s[i] >= 0x20 as char
  }

  /** What may be written into a record is what is written as it is. */
  lemma {:induction false} SafeIsUnescaped(s: string)
    ensures RecordSafe(s) <==> Escape(s) == s
    ensures |Escape(s)| >= |s|
  {
    if s != "" {
      SafeIsUnescaped(s[1..]);
      assert Escape(s) == EscapeChar(s[0]) + Escape(s[1..]);
      if Escape(s) == s {
        assert |EscapeChar(s[0])| == 1;
        assert Escape(s[1..]) == Escape(s)[1..] == s[1..];
      }
      if RecordSafe(s) {
        assert RecordSafe(s[1..]);
        assert [s[0]] + s[1..] == s;
      }
    }
  }

  // ── Members ────────────────────────────────────────────────────────────

  /** A claim's value; `Confirmation` is the nested `cnf` object. */
  datatype Value = Text(s: string) | Number(n: nat) | Truth(b: bool) | Confirmation(jkt: string) | Raw(json: string)

  datatype Member = Member(key: string, value: Value)

  function ValueText(v: Value): string {
    match v
    case Text(s) => Quoted(s)
    case Number(n) => Decimal(n)
    case Truth(b) => if b then "true" else "false"
    case Confirmation(jkt) => "{" + Quoted("jkt") + ":" + Quoted(jkt) + "}"
    case Raw(json) => json
  }

  function MemberText(m: Member): string { Quoted(m.key) + ":" + ValueText(m.value) }

  /** Members from `i` on, each after the first with a comma before it. */
  function Rest(ms: seq<Member>): string {
    if ms == [] then "}" else "," + MemberText(ms[0]) + Rest(ms[1..])
  }

  function Object(ms: seq<Member>): string {
    if ms == [] then "{}" else "{" + MemberText(ms[0]) + Rest(ms[1..])
  }

  /** A key a claim may have: nothing in it needs escaping. */
  predicate PlainKey(k: string) { k != "" && RecordSafe(k) }

  /** A name looked up: plain, and beginning with a letter. */
  predicate IsName(k: string) {
    PlainKey(k) && ('a' <= k[0] <= 'z' || 'A' <= k[0] <= 'Z')
  }

  // ── The scanner ────────────────────────────────────────────────────────

  function AfterSpaces(t: string): (r: string)
    ensures |r| <= |t| && (r != "" ==> r[0] != ' ')
  {
    if t != "" && t[0] == ' ' then AfterSpaces(t[1..]) else t
  }

  /** The text begins with the quoted key and a colon. */
  predicate MemberHere(t: string, k: string) {
    && |t| >= |k| + 2 && t[0] == '\"' && t[1..1 + |k|] == k && t[1 + |k|] == '\"'
    && AfterSpaces(t[|k| + 2..]) != "" && AfterSpaces(t[|k| + 2..])[0] == ':'
  }

  /** What follows the first place that looks like the key. */
  function Find(t: string, k: string): (r: Option<string>)
    ensures r.Some? ==> |r.value| < |t|
  {
    if |t| < |k| + 2 then None
    else if MemberHere(t, k) then Some(AfterSpaces(AfterSpaces(t[|k| + 2..])[1..]))
    else Find(t[1..], k)
  }

  /** The digits in front. */
  function Digits(t: string): (d: string)
    ensures d <= t && AllDigits(d)
  {
    if t == "" || !IsDigit(t[0]) then "" else [t[0]] + Digits(t[1..])
  }

  /** `claim_u64`. */
  function ClaimNumber(t: string, k: string): Option<nat> {
    match Find(t, k)
    case None => None
    case Some(v) => if Digits(v) == "" || DigitsValue(Digits(v)) > U64_MAX then None else Some(DigitsValue(Digits(v)))
  }

  /** Where the string closes, passing over whatever a backslash escapes. */
  function CloseAt(t: string, i: nat): (r: Option<nat>)
    ensures r.Some? ==> i <= r.value < |t|
    decreases if i < |t| then |t| - i else 0
  {
    if i >= |t| then None
    else if t[i] == '\\' then CloseAt(t, i + 2)
    else if t[i] == '\"' then Some(i)
    else CloseAt(t, i + 1)
  }

  /** `claim_str`. */
  function ClaimText(t: string, k: string): Option<string> {
    match Find(t, k)
    case None => None
    case Some(v) =>
      if v == "" || v[0] != '\"' || CloseAt(v, 1).None? then None else Some(v[1..CloseAt(v, 1).value])
  }

  // ── Passing over text ──────────────────────────────────────────────────

  /** A character that is no quote begins no key. */
  lemma PassChar(c: char, t: string, k: string)
    requires c != '\"'
    ensures Find([c] + t, k) == Find(t, k)
  {
    assert ([c] + t)[1..] == t;
  }

  lemma {:induction false} PassPlain(a: string, t: string, k: string)
    requires '\"' !in a
    ensures Find(a + t, k) == Find(t, k)
  {
    if a == "" {
      assert a + t == t;
    } else {
      assert a + t == [a[0]] + (a[1..] + t);
      PassChar(a[0], a[1..] + t, k);
      PassPlain(a[1..], t, k);
    }
  }

  /** A quote that is not followed by the key and a colon begins none. */
  lemma PassQuote(t: string, k: string)
    requires !MemberHere(['\"'] + t, k)
    ensures Find(['\"'] + t, k) == Find(t, k)
  {
    assert (['\"'] + t)[1..] == t;
  }

  lemma HeadOf(t: string, i: nat, n: nat)
    requires i + n <= |t|
    ensures n > 0 ==> t[i..i + n][0] == t[i]
  {
  }

  /** From inside a string, a plain text that runs up to a quote runs up to the
      string's own closing quote. */
  lemma {:induction false} UpToQuote(s: string, rest: string, k: string)
    requires RecordSafe(k)
    requires var t := Escape(s) + (['\"'] + rest); |k| < |t| && t[..|k|] == k && t[|k|] == '\"'
    ensures s == k && (Escape(s) + (['\"'] + rest))[|k| + 1..] == rest
  {
    var t := Escape(s) + (['\"'] + rest);
    if s == "" {
      assert t == ['\"'] + rest;
      HeadOf(t, 0, |k|);
    } else {
      var u := Escape(s[1..]) + (['\"'] + rest);
      assert t == EscapeChar(s[0]) + u;
      FirstIsKeys(s[0], u, k);
      UpToQuote(s[1..], rest, k[1..]);
      assert s == [s[0]] + s[1..] && k == [k[0]] + k[1..];
    }
  }

  /** Where a plain text runs up to a quote, its first character was written
      as it is. */
  lemma FirstIsKeys(c: char, u: string, k: string)
    requires RecordSafe(k)
    requires var t := EscapeChar(c) + u; |k| < |t| && t[..|k|] == k && t[|k|] == '\"'
    ensures k != "" && k[0] == c && EscapeChar(c) == [c] && RecordSafe(k[1..])
    ensures |k| - 1 < |u| && u[..|k| - 1] == k[1..] && u[|k| - 1] == '\"'
    ensures (EscapeChar(c) + u)[|k| + 1..] == u[|k|..]
  {
    var t := EscapeChar(c) + u;
    if k != "" { assert k[0] == t[..|k|][0] == t[0]; }
    assert EscapeChar(c) == [c];
    assert u[..|k| - 1] == t[..|k|][1..] == k[1..];
  }

  /** What follows a string: neither a space nor a colon. */
  predicate Ends(rest: string) { rest != "" && (rest[0] == ',' || rest[0] == '}') }

  /** No quote inside a string, nor the one it opens with, begins a key. */
  lemma QuoteIsNoKey(s: string, rest: string, k: string)
    requires IsName(k) && Ends(rest)
    ensures !MemberHere(['\"'] + (Escape(s) + (['\"'] + rest)), k)
  {
    var u := Escape(s) + (['\"'] + rest);
    var t := ['\"'] + u;
    if |t| >= |k| + 2 && t[1..1 + |k|] == k && t[1 + |k|] == '\"' {
      assert u[..|k|] == t[1..1 + |k|] && u[|k|] == t[1 + |k|];
      UpToQuote(s, rest, k);
      assert t[|k| + 2..] == u[|k| + 1..] == rest;
    }
  }

  /** Nor does the closing one. */
  lemma CloseIsNoKey(rest: string, k: string)
    requires IsName(k) && rest != "" && (Ends(rest) || rest[0] == ':')
    ensures !MemberHere(['\"'] + rest, k)
  {
    var t := ['\"'] + rest;
    if |t| >= |k| + 2 { HeadOf(t, 1, |k|); }
  }

  lemma EscapeCharIsPlain(c: char)
    requires c != '\"'
    ensures '\"' !in EscapeChar(c)
  {
  }

  /** The inside of a string holds no key, whatever it says. */
  lemma {:induction false} PassInside(s: string, rest: string, k: string)
    requires IsName(k) && Ends(rest)
    ensures Find(Escape(s) + (['\"'] + rest), k) == Find(rest, k)
  {
    if s == "" {
      assert Escape(s) + (['\"'] + rest) == ['\"'] + rest;
      CloseIsNoKey(rest, k);
      PassQuote(rest, k);
    } else {
      var u := Escape(s[1..]) + (['\"'] + rest);
      PassInside(s[1..], rest, k);
      assert Escape(s) + (['\"'] + rest) == EscapeChar(s[0]) + u;
      QuoteIsNoKey(s[1..], rest, k);
      PassEscaped(s[0], u, k);
    }
  }

  lemma PassEscaped(c: char, u: string, k: string)
    requires !MemberHere(['\"'] + u, k)
    ensures Find(EscapeChar(c) + u, k) == Find(u, k)
  {
    if c == '\"' {
      assert EscapeChar(c) + u == ['\\'] + (['\"'] + u);
      PassChar('\\', ['\"'] + u, k);
      PassQuote(u, k);
    } else {
      EscapeCharIsPlain(c);
      PassPlain(EscapeChar(c), u, k);
    }
  }

  lemma PassString(s: string, rest: string, k: string)
    requires IsName(k) && Ends(rest)
    ensures Find(Quoted(s) + rest, k) == Find(rest, k)
  {
    var u := Escape(s) + (['\"'] + rest);
    assert Quoted(s) + rest == ['\"'] + u;
    QuoteIsNoKey(s, rest, k);
    PassQuote(u, k);
    PassInside(s, rest, k);
  }

  lemma QuotedPlain(key: string)
    requires PlainKey(key)
    ensures Quoted(key) == ['\"'] + key + ['\"']
  {
    SafeIsUnescaped(key);
  }

  /** Another key is passed over. */
  lemma PassKey(key: string, rest: string, k: string)
    requires PlainKey(key) && IsName(k) && key != k
    ensures Find(Quoted(key) + ":" + rest, k) == Find(rest, k)
  {
    QuotedPlain(key);
    SafeIsUnescaped(key);
    var tail := ['\"'] + (":" + rest);
    assert Quoted(key) + ":" + rest == ['\"'] + (key + tail);
    KeyIsOther(key, rest, k);
    PassQuote(key + tail, k);
    PassPlain(key, tail, k);
    CloseIsNoKey(":" + rest, k);
    PassQuote(":" + rest, k);
    PassChar(':', rest, k);
    assert [':'] + rest == ":" + rest;
  }

  lemma KeyIsOther(key: string, rest: string, k: string)
    requires PlainKey(key) && IsName(k) && key != k && Escape(key) == key
    ensures !MemberHere(['\"'] + (key + (['\"'] + (":" + rest))), k)
  {
    var u := key + (['\"'] + (":" + rest));
    var t := ['\"'] + u;
    if |t| >= |k| + 2 && t[1..1 + |k|] == k && t[1 + |k|] == '\"' {
      assert u[..|k|] == t[1..1 + |k|] && u[|k|] == t[1 + |k|];
      UpToQuote(key, ":" + rest, k);
    }
  }

  /** The key itself is found. */
  lemma KeyFound(k: string, rest: string)
    requires PlainKey(k) && rest != "" && rest[0] != ' '
    ensures Find(Quoted(k) + ":" + rest, k) == Some(rest)
  {
    QuotedPlain(k);
    var t := Quoted(k) + ":" + rest;
    assert t[1..1 + |k|] == k && t[|k| + 2..] == ":" + rest && (":" + rest)[1..] == rest;
  }

  /** The confirmation is an object of one string. */
  lemma ConfirmationText(jkt: string, rest: string)
    ensures ValueText(Confirmation(jkt)) + rest == "{" + (Quoted("jkt") + ":" + (Quoted(jkt) + ("}" + rest)))
    ensures PlainKey("jkt") && IsName("jkt")
  {
    hide Quoted;
    var q, j := Quoted("jkt"), Quoted(jkt);
    assert "{" + q + ":" + j + "}" + rest == "{" + (q + ":" + (j + ("}" + rest)));
  }

  lemma PassConfirmation(jkt: string, rest: string, k: string)
    requires IsName(k) && k != "jkt" && Ends(rest)
    ensures Find(ValueText(Confirmation(jkt)) + rest, k) == Find(rest, k)
  {
    hide Find, Quoted, IsName, PlainKey, ValueText;
    var inner := Quoted(jkt) + ("}" + rest);
    ConfirmationText(jkt, rest);
    PassPlain("{", Quoted("jkt") + ":" + inner, k);
    PassKey("jkt", inner, k);
    PassString(jkt, "}" + rest, k);
    PassPlain("}", rest, k);
  }

  /** The name inside the confirmation is found there. */
  lemma ConfirmationAnswers(jkt: string, rest: string)
    ensures Find(ValueText(Confirmation(jkt)) + rest, "jkt") == Some(Quoted(jkt) + ("}" + rest))
  {
    hide Find, IsName, PlainKey, ValueText, Escape;
    var inner := Quoted(jkt) + ("}" + rest);
    ConfirmationText(jkt, rest);
    PassPlain("{", Quoted("jkt") + ":" + inner, "jkt");
    KeyFound("jkt", inner);
  }

  /** A value of no raw JSON holds no key but the confirmation's own. */
  lemma PassValue(v: Value, rest: string, k: string)
    requires IsName(k) && Ends(rest) && !v.Raw? && (v.Confirmation? ==> k != "jkt")
    ensures Find(ValueText(v) + rest, k) == Find(rest, k)
  {
    hide Find, IsName, Quoted;
    match v {
      case Text(s) => PassString(s, rest, k);
      case Number(n) =>
        DigitsArePlain(Decimal(n));
        PassPlain(Decimal(n), rest, k);
      case Truth(b) => PassPlain(ValueText(v), rest, k);
      case Confirmation(jkt) => PassConfirmation(jkt, rest, k);
    }
  }

  lemma DigitsArePlain(d: string)
    requires AllDigits(d)
    ensures '\"' !in d
  {
  }
}
