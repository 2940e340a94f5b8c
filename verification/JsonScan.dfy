/** The scanner against the writer: every number and string of a claims object
    is read back, whatever the other values contain. */
module JsonScan {
  import opened Basics
  import opened Numerals
  import opened Json

  // ── Members in their object ────────────────────────────────────────────

  /** Plain keys, and no raw JSON. */
  ghost predicate Scannable(ms: seq<Member>) {
    forall i :: 0 <= i < |ms| ==> PlainKey(ms[i].key) && !ms[i].value.Raw?
  }

  ghost predicate DifferentKeys(ms: seq<Member>) {
    forall i, j :: 0 <= i < j < |ms| ==> ms[i].key != ms[j].key
  }

  lemma RestEnds(ms: seq<Member>)
    ensures Ends(Rest(ms))
  {
    if ms != [] { RestIs(ms); }
  }

  lemma RestIs(ms: seq<Member>)
    requires ms != []
    ensures Rest(ms) == "," + (MemberText(ms[0]) + Rest(ms[1..]))
  {
    Regroup(",", MemberText(ms[0]), Rest(ms[1..]));
  }

  /** A member that a scan for `k` stops at: its own key, or the confirmation
      when `k` is the name inside it. */
  predicate Answers(m: Member, k: string) { m.key == k || (k == "jkt" && m.value.Confirmation?) }

  /** What the scan finds there. */
  function Answer(m: Member, k: string): Value
    requires Answers(m, k)
  {
    if m.key == k then m.value else Text(m.value.jkt)
  }

  /** The value of the first member that answers. */
  function Lookup(ms: seq<Member>, k: string): Option<Value> {
    if ms == [] then None
    else if Answers(ms[0], k) then Some(Answer(ms[0], k))
    else Lookup(ms[1..], k)
  }

  lemma MemberSplits(m: Member, rest: string)
    ensures MemberText(m) + rest == Quoted(m.key) + ":" + (ValueText(m.value) + rest)
  {
  }

  /** Another member is passed over whole. */
  lemma PassMember(m: Member, rest: string, k: string)
    requires PlainKey(m.key) && !m.value.Raw? && IsName(k) && !Answers(m, k) && Ends(rest)
    ensures Find(MemberText(m) + rest, k) == Find(rest, k)
  {
    hide Find, Quoted, ValueText, IsName, PlainKey;
    MemberSplits(m, rest);
    PassKey(m.key, ValueText(m.value) + rest, k);
    PassValue(m.value, rest, k);
  }

  lemma ValueBegins(v: Value, rest: string)
    requires !v.Raw?
    ensures ValueText(v) != "" && ValueText(v)[0] != ' '
  {
    if v.Number? { assert IsDigit(Decimal(v.n)[0]); }
  }

  /** A member that answers is found at its answer. */
  lemma MemberFound(m: Member, rest: string, k: string) returns (tail: string)
    requires PlainKey(m.key) && !m.value.Raw? && IsName(k) && Answers(m, k) && Ends(rest)
    ensures Ends(tail) && Find(MemberText(m) + rest, k) == Some(ValueText(Answer(m, k)) + tail)
  {
    hide Find, Quoted, IsName, PlainKey, Escape;
    MemberSplits(m, rest);
    if m.key == k {
      ValueBegins(m.value, rest);
      KeyFound(k, ValueText(m.value) + rest);
      tail := rest;
    } else {
      PassKey(m.key, ValueText(m.value) + rest, k);
      ConfirmationAnswers(m.value.jkt, rest);
      tail := "}" + rest;
    }
  }

  lemma FirstInRest(ms: seq<Member>, k: string) returns (tail: string)
    requires ms != [] && PlainKey(ms[0].key) && !ms[0].value.Raw? && IsName(k) && Answers(ms[0], k)
    ensures Ends(tail) && Find(Rest(ms), k) == Some(ValueText(Answer(ms[0], k)) + tail)
  {
    hide Find, Rest, MemberText, ValueText, PlainKey, IsName, Answers, Answer;
    RestIs(ms);
    RestEnds(ms[1..]);
    PassPlain(",", MemberText(ms[0]) + Rest(ms[1..]), k);
    tail := MemberFound(ms[0], Rest(ms[1..]), k);
  }

  lemma PassFirst(ms: seq<Member>, k: string)
    requires ms != [] && PlainKey(ms[0].key) && !ms[0].value.Raw? && IsName(k) && !Answers(ms[0], k)
    ensures Find(Rest(ms), k) == Find(Rest(ms[1..]), k)
  {
    hide Find, Rest, MemberText, ValueText, PlainKey, IsName, Answers;
    RestIs(ms);
    RestEnds(ms[1..]);
    PassPlain(",", MemberText(ms[0]) + Rest(ms[1..]), k);
    PassMember(ms[0], Rest(ms[1..]), k);
  }

  lemma {:induction false} FoundInRest(ms: seq<Member>, k: string) returns (tail: string)
    requires Scannable(ms) && IsName(k)
    ensures match Lookup(ms, k)
            case Some(v) => Ends(tail) && Find(Rest(ms), k) == Some(ValueText(v) + tail)
            case None => Find(Rest(ms), k).None?
  {
    hide Find, ValueText, PlainKey, IsName, Answers, Answer;
    if ms == [] {
      tail := "";
      PassPlain("}", "", k);
      assert "}" + "" == "}";
      NothingToFind(k);
    } else if Answers(ms[0], k) {
      tail := FirstInRest(ms, k);
    } else {
      PassFirst(ms, k);
      tail := FoundInRest(ms[1..], k);
    }
  }

  lemma NothingToFind(k: string)
    ensures Find("", k).None?
  {
  }

  /** An object is its members in braces. */
  lemma ObjectFinds(ms: seq<Member>, k: string)
    ensures Find(Object(ms), k) == Find(Rest(ms), k)
  {
    if ms == [] {
      PassPlain("{", "}", k);
      assert "{" + "}" == "{}";
    } else {
      var inner := MemberText(ms[0]) + Rest(ms[1..]);
      RestIs(ms);
      Regroup("{", MemberText(ms[0]), Rest(ms[1..]));
      PassPlain("{", inner, k);
      PassPlain(",", inner, k);
    }
  }

  // ── What is read there ─────────────────────────────────────────────────

  lemma {:induction false} DigitsStop(d: string, rest: string)
    requires AllDigits(d) && (rest == "" || !IsDigit(rest[0]))
    ensures Digits(d + rest) == d
  {
    if d == "" {
      assert d + rest == rest;
    } else {
      assert (d + rest)[1..] == d[1..] + rest && (d + rest)[0] == d[0];
      DigitsStop(d[1..], rest);
    }
  }

  lemma {:induction false} CloseMoves(a: string, t: string, i: nat)
    requires i <= |t|
    ensures CloseAt(a + t, |a| + i) == match CloseAt(t, i) case Some(j) => Some(|a| + j) case None => None
    decreases |t| - i
  {
    if i < |t| {
      assert (a + t)[|a| + i] == t[i];
      if t[i] == '\\' {
        if i + 2 <= |t| { CloseMoves(a, t, i + 2); }
      } else if t[i] != '\"' {
        CloseMoves(a, t, i + 1);
      }
    }
  }

  /** A string closes where it was closed, whatever is inside and after it. */
  lemma {:induction false} Closes(s: string, rest: string)
    ensures CloseAt(Escape(s) + (['\"'] + rest), 0) == Some(|Escape(s)|)
  {
    var u := Escape(if s == "" then "" else s[1..]) + (['\"'] + rest);
    if s == "" {
      assert u == ['\"'] + rest;
    } else {
      var e := EscapeChar(s[0]);
      assert Escape(s) + (['\"'] + rest) == e + u;
      Closes(s[1..], rest);
      CloseMoves(e, u, 0);
      EscapeCloses(s[0], u);
    }
  }

  /** What one character was escaped to is passed over. */
  lemma EscapeCloses(c: char, u: string)
    ensures CloseAt(EscapeChar(c) + u, 0) == CloseAt(EscapeChar(c) + u, |EscapeChar(c)|)
  {
    var t := EscapeChar(c) + u;
    if |EscapeChar(c)| == 6 {
      assert t[0] == '\\' && t[2] == '0' && t[3] == '0';
      HexIsPlain(c as int / 16);
      HexIsPlain(c as int % 16);
      assert CloseAt(t, 2) == CloseAt(t, 3) == CloseAt(t, 4) == CloseAt(t, 5) == CloseAt(t, 6);
    }
  }

  lemma HexIsPlain(n: nat)
    requires n < 16
    ensures LowHex(n) != '\"' && LowHex(n) != '\\'
  {
  }

  /** What `claim_u64` makes of a value in its place. */
  function AsNumber(v: Option<Value>): Option<nat> {
    if v.Some? && v.value.Number? && v.value.n <= U64_MAX then Some(v.value.n) else None
  }

  /** What `claim_str` makes of it: the string as it was escaped. */
  function AsText(v: Option<Value>): Option<string> {
    if v.Some? && v.value.Text? then Some(Escape(v.value.s)) else None
  }

  /** Whatever the other values contain, a number is read back if it has
      sixty-four bits, and no other value is read as one. */
  lemma NumberReadsBack(ms: seq<Member>, k: string)
    requires Scannable(ms) && IsName(k)
    ensures ClaimNumber(Object(ms), k) == AsNumber(Lookup(ms, k))
  {
    hide Find, Object, Rest, Lookup, ValueText, DigitsValue, IsName;
    ObjectFinds(ms, k);
    var tail := FoundInRest(ms, k);
    match Lookup(ms, k)
    case None =>
    case Some(v) => LookupIsNotRaw(ms, k); ValueDigits(v, tail);
  }

  lemma {:induction false} LookupIsNotRaw(ms: seq<Member>, k: string)
    requires Scannable(ms)
    ensures Lookup(ms, k).Some? ==> !Lookup(ms, k).value.Raw?
  {
    if ms != [] { LookupIsNotRaw(ms[1..], k); }
  }

  /** The digits a value begins with. */
  lemma ValueDigits(v: Value, tail: string)
    requires !v.Raw? && Ends(tail)
    ensures v.Number? ==> Digits(ValueText(v) + tail) == Decimal(v.n) != "" && DigitsValue(Decimal(v.n)) == v.n
    ensures !v.Number? ==> Digits(ValueText(v) + tail) == ""
  {
    if v.Number? { DigitsStop(Decimal(v.n), tail); }
  }

  /** Every string is read back as it was escaped, and no other value is read
      as one. */
  lemma TextReadsBack(ms: seq<Member>, k: string)
    requires Scannable(ms) && IsName(k)
    ensures ClaimText(Object(ms), k) == AsText(Lookup(ms, k))
  {
    hide Find, Object, Rest, Lookup, CloseAt, Escape, IsName;
    ObjectFinds(ms, k);
    var tail := FoundInRest(ms, k);
    match Lookup(ms, k)
    case None =>
    case Some(v) =>
      LookupIsNotRaw(ms, k);
      if v.Text? {
        StringReads(v.s, tail);
      } else {
        NoQuoteInFront(v, tail);
      }
  }

  lemma NoQuoteInFront(v: Value, tail: string)
    requires !v.Raw? && !v.Text?
    ensures ValueText(v) + tail != "" && (ValueText(v) + tail)[0] != '\"'
  {
    if v.Number? { assert IsDigit(Decimal(v.n)[0]); }
  }

  lemma Between(a: string, e: string, tail: string)
    requires |a| == 1
    ensures a + e + a + tail == a + (e + (a + tail))
    ensures (a + (e + (a + tail)))[0] == a[0] && (a + (e + (a + tail)))[1..1 + |e|] == e
  {
    assert e + (a + tail) == (e + a) + tail;
    assert (a + (e + (a + tail)))[1..] == e + (a + tail);
  }

  lemma StringReads(s: string, tail: string)
    ensures var v := Quoted(s) + tail;
            v[0] == '\"' && CloseAt(v, 1) == Some(1 + |Escape(s)|) && v[1..1 + |Escape(s)|] == Escape(s)
  {
    var u := Escape(s) + (['\"'] + tail);
    Between(['\"'], Escape(s), tail);
    hide CloseAt, Escape;
    Closes(s, tail);
    CloseMoves(['\"'], u, 0);
  }

  /** A name no member answers to is not found. */
  lemma AbsentIsNotRead(ms: seq<Member>, k: string)
    requires Scannable(ms) && IsName(k) && forall j :: 0 <= j < |ms| ==> !Answers(ms[j], k)
    ensures ClaimNumber(Object(ms), k).None? && ClaimText(Object(ms), k).None?
  {
    hide ClaimNumber, ClaimText, Object, IsName;
    NumberReadsBack(ms, k);
    TextReadsBack(ms, k);
    LookupNone(ms, k);
  }

  lemma {:induction false} LookupNone(ms: seq<Member>, k: string)
    requires forall j :: 0 <= j < |ms| ==> !Answers(ms[j], k)
    ensures Lookup(ms, k).None?
  {
    if ms != [] { LookupNone(ms[1..], k); }
  }

  lemma {:induction false} LookupFirst(ms: seq<Member>, i: nat, k: string)
    requires i < |ms| && Answers(ms[i], k) && forall j :: 0 <= j < i ==> !Answers(ms[j], k)
    ensures Lookup(ms, k) == Some(Answer(ms[i], k))
  {
    if i > 0 { LookupFirst(ms[1..], i - 1, k); }
  }

  /** Raw JSON is why there may be none: a claim before `exp` can answer for it. */
  lemma RawCanAnswer(later: seq<Member>)
    ensures ClaimNumber(Object([Member("a", Raw("{\"exp\":1}"))] + later), "exp") == Some(1)
  {
    var first := Member("a", Raw("{\"exp\":1}"));
    var ms := [first] + later;
    assert ms[1..] == later;
    ObjectFinds(ms, "exp");
    RestIs(ms);
    PassPlain(",", MemberText(first) + Rest(later), "exp");
    RawFirst(Rest(later));
    Regroup("1", "}", Rest(later));
    assert "1" + "}" == "1}" && "}" + Rest(later) != "";
    DigitsStop("1", "}" + Rest(later));
    DigitOne();
  }

  lemma DigitOne()
    ensures AllDigits("1") && DigitsValue("1") == 1
  {
    assert "1"[..0] == "";
  }

  lemma RawFirst(rest: string)
    ensures Find(MemberText(Member("a", Raw("{\"exp\":1}"))) + rest, "exp") == Some("1}" + rest)
  {
    var inner := Quoted("exp") + ":" + ("1}" + rest);
    QuotedPlain("exp");
    assert "{\"exp\":1}" == "{" + ((['\"'] + "exp" + ['\"']) + ":" + "1}");
    Regroup(Quoted("exp") + ":", "1}", rest);
    Regroup("{", Quoted("exp") + ":" + "1}", rest);
    Regroup(Quoted("a") + ":", "{" + (Quoted("exp") + ":" + "1}"), rest);
    PassKey("a", "{" + inner, "exp");
    PassPlain("{", inner, "exp");
    KeyFound("exp", "1}" + rest);
  }

  // ── The loops ──────────────────────────────────────────────────────────

  method SkipSpaces(t: string, from: nat) returns (j: nat)
    requires from <= |t|
    ensures from <= j <= |t| && t[j..] == AfterSpaces(t[from..])
  {
    j := from;
    while j < |t| && t[j] == ' '
      invariant from <= j <= |t| && AfterSpaces(t[from..]) == AfterSpaces(t[j..])
    {
      assert t[j..][1..] == t[j + 1..];
      j := j + 1;
    }
  }

  /** The text begins with the quoted key. */
  predicate QuotedHere(t: string, i: nat, k: string)
    requires i + |k| + 2 <= |t|
  {
    t[i] == '\"' && t[i + 1..i + 1 + |k|] == k && t[i + 1 + |k|] == '\"'
  }

  /** A place in the text as the front of what follows it. */
  lemma HereFromThere(t: string, i: nat, k: string)
    requires i + |k| + 2 <= |t|
    ensures var after := AfterSpaces(t[i + |k| + 2..]);
            MemberHere(t[i..], k) <==> QuotedHere(t, i, k) && after != "" && after[0] == ':'
    ensures t[i..][1..] == t[i + 1..] && t[i..][|k| + 2..] == t[i + |k| + 2..]
  {
    assert t[i..][1..1 + |k|] == t[i + 1..i + 1 + |k|];
  }

  lemma FindStep(t: string, i: nat, k: string)
    requires i + |k| + 2 <= |t| && !MemberHere(t[i..], k)
    ensures Find(t[i..], k) == Find(t[i + 1..], k)
  {
    HereFromThere(t, i, k);
  }

  lemma FoundHere(t: string, i: nat, k: string)
    requires i + |k| + 2 <= |t| && MemberHere(t[i..], k)
    ensures Find(t[i..], k) == Some(AfterSpaces(AfterSpaces(t[i + |k| + 2..])[1..]))
  {
    HereFromThere(t, i, k);
  }

  /** The scan both readers share. */
  method FindKey(t: string, k: string) returns (at: Option<nat>)
    ensures match at
            case Some(j) => j <= |t| && Find(t, k) == Some(t[j..])
            case None => Find(t, k).None?
  {
    var i := 0;
    assert t[0..] == t;
    while i + |k| + 2 <= |t|
      invariant i <= |t| && Find(t, k) == Find(t[i..], k)
    {
      HereFromThere(t, i, k);
      if QuotedHere(t, i, k) {
        var j := SkipSpaces(t, i + |k| + 2);
        if j < |t| && t[j] == ':' {
          FoundHere(t, i, k);
          assert t[j..][1..] == t[j + 1..];
          var v := SkipSpaces(t, j + 1);
          return Some(v);
        }
      }
      FindStep(t, i, k);
      i := i + 1;
    }
    return None;
  }

  lemma {:induction false} DigitsGrow(d: string, c: char)
    requires AllDigits(d) && IsDigit(c)
    ensures AllDigits(d + [c]) && DigitsValue(d + [c]) == 10 * DigitsValue(d) + (c as int - '0' as int)
  {
    assert (d + [c])[..|d|] == d;
  }

  lemma {:induction false} DigitsAppend(d: string, t: string)
    requires AllDigits(d)
    ensures Digits(d + t) == d + Digits(t)
  {
    if d == "" {
      assert d + t == t && "" + Digits(t) == Digits(t);
    } else {
      assert (d + t)[1..] == d[1..] + t && (d + t)[0] == d[0];
      DigitsAppend(d[1..], t);
      assert [d[0]] + (d[1..] + Digits(t)) == d + Digits(t);
    }
  }

  lemma {:induction false} ValueOnlyGrows(d: string, more: string)
    requires AllDigits(d) && AllDigits(more)
    ensures AllDigits(d + more) && DigitsValue(d) <= DigitsValue(d + more)
  {
    if more == "" {
      assert d + more == d;
    } else {
      assert (d + more)[..|d + more| - 1] == d + more[..|more| - 1];
      ValueOnlyGrows(d, more[..|more| - 1]);
    }
  }

  lemma EmptyValue()
    ensures AllDigits("") && DigitsValue("") == 0
  {
  }

  lemma DigitIs(c: char)
    requires IsDigit(c)
    ensures '0' <= c <= '9'
  {
  }

  lemma DigitTaken(v: string, j: nat)
    requires j < |v| && AllDigits(v[..j]) && IsDigit(v[j])
    ensures '0' <= v[j] <= '9' && AllDigits(v[..j + 1])
    ensures DigitsValue(v[..j + 1]) == 10 * DigitsValue(v[..j]) + (v[j] as int - '0' as int)
  {
    assert v[..j + 1] == v[..j] + [v[j]];
    DigitsGrow(v[..j], v[j]);
    DigitIs(v[j]);
  }

  lemma TooLarge(v: string, j: nat)
    requires 0 < j <= |v| && AllDigits(v[..j]) && DigitsValue(v[..j]) > U64_MAX
    ensures Digits(v) != "" && DigitsValue(Digits(v)) > U64_MAX
  {
    hide Digits, DigitsValue, IsDigit;
    assert v == v[..j] + v[j..];
    DigitsAppend(v[..j], v[j..]);
    ValueOnlyGrows(v[..j], Digits(v[j..]));
  }

  lemma DigitsEnd(v: string, j: nat)
    requires j <= |v| && AllDigits(v[..j]) && (j == |v| || !IsDigit(v[j]))
    ensures Digits(v) == v[..j]
  {
    assert v == v[..j] + v[j..];
    DigitsStop(v[..j], v[j..]);
  }

  /** `claim_u64`. */
  method ReadNumber(t: string, k: string) returns (r: Option<nat>)
    ensures r == ClaimNumber(t, k)
  {
    var at := FindKey(t, k);
    if at.None? {
      return None;
    }
    hide Find, Digits, DigitsValue, IsDigit;
    var v := t[at.value..];
    var j, value := 0, 0;
    EmptyValue();
    assert v[..0] == "";
    while j < |v| && IsDigit(v[j])
      invariant j <= |v| && AllDigits(v[..j]) && value == DigitsValue(v[..j]) <= U64_MAX
    {
      DigitTaken(v, j);
      if value * 10 + (v[j] as int - '0' as int) > U64_MAX {
        TooLarge(v, j + 1);
        return None;
      }
      value := value * 10 + (v[j] as int - '0' as int);
      j := j + 1;
    }
    DigitsEnd(v, j);
    return if j > 0 then Some(value) else None;
  }

  /** `claim_str`. */
  method ReadText(t: string, k: string) returns (r: Option<string>)
    ensures r == ClaimText(t, k)
  {
    var at := FindKey(t, k);
    if at.None? {
      return None;
    }
    var v := t[at.value..];
    if v == "" || v[0] != '\"' {
      return None;
    }
    var j := 1;
    while j < |v|
      invariant 1 <= j && CloseAt(v, 1) == CloseAt(v, j)
      decreases if j < |v| then |v| - j else 0
    {
      if v[j] == '\\' {
        j := j + 2;
      } else if v[j] == '\"' {
        return Some(v[1..j]);
      } else {
        j := j + 1;
      }
    }
    return None;
  }
}
