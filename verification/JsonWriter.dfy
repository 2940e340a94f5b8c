/** Writing claims into a bounded buffer: each call writes its text or refuses. */
module JsonWriter {
  import opened Basics
  import opened Numerals
  import opened Json

  class Writer {
    const out: array<char>
    var pos: nat

    ghost predicate Valid()
      reads this
    {
      pos <= out.Length
    }

    ghost function Written(): string
      reads this, out
      requires Valid()
    {
      out[..pos]
    }

    constructor (out: array<char>)
      ensures Valid() && this.out == out && pos == 0
    {
      this.out := out;
      pos := 0;
    }

    method Push(c: char) returns (ok: bool)
      requires Valid()
      modifies this`pos, out
      ensures Valid() && ok == (old(pos) < out.Length)
      ensures Written() == if ok then old(Written()) + [c] else old(Written())
    {
      if pos >= out.Length {
        return false;
      }
      out[pos] := c;
      pos := pos + 1;
      return true;
    }

    method WriteRaw(text: string) returns (ok: bool)
      requires Valid()
      modifies this`pos, out
      ensures Valid() && ok == (old(pos) + |text| <= out.Length)
      ensures ok ==> Written() == old(Written()) + text
    {
      ok := true;
      for i := 0 to |text|
        invariant Valid() && pos == old(pos) + i && Written() == old(Written()) + text[..i]
      {
        ok := Push(text[i]);
        if !ok {
          return;
        }
      }
      assert text[..|text|] == text;
    }

    /** A string's characters, escaped. */
    method WriteEscaped(s: string) returns (ok: bool)
      requires Valid()
      modifies this`pos, out
      ensures Valid() && ok == (old(pos) + |Escape(s)| <= out.Length)
      ensures ok ==> Written() == old(Written()) + Escape(s)
    {
      ghost var before := Written();
      ok := true;
      assert before + "" == before;
      for i := 0 to |s|
        invariant Valid() && Written() == before + Escape(s[..i]) && pos == old(pos) + |Escape(s[..i])|
      {
        EscapeMore(s, i);
        ghost var done := Escape(s[..i]);
        ok := WriteRaw(EscapeChar(s[i]));
        if !ok {
          return;
        }
        Regroup(before, done, EscapeChar(s[i]));
      }
      assert s[..|s|] == s;
    }

    /** A quoted string. */
    method WriteString(s: string) returns (ok: bool)
      requires Valid()
      modifies this`pos, out
      ensures Valid() && ok == (old(pos) + |Quoted(s)| <= out.Length)
      ensures ok ==> Written() == old(Written()) + Quoted(s)
    {
      ghost var before := Written();
      ok := Push('\"');
      if ok { ok := WriteEscaped(s); }
      if ok { ok := Push('\"'); }
      QuotesJoin(before, Escape(s));
    }

    method WriteNumber(n: nat) returns (ok: bool)
      requires Valid() && n <= U64_MAX
      modifies this`pos, out
      ensures Valid() && ok == (old(pos) + |Decimal(n)| <= out.Length)
      ensures ok ==> Written() == old(Written()) + Decimal(n)
    {
      TwentyDigits(n);
      var digits, at := DigitsOf(n, 20);
      ok := WriteRaw(digits[at..]);
    }

    method WriteValue(v: Value) returns (ok: bool)
      requires Valid() && (v.Number? ==> v.n <= U64_MAX)
      modifies this`pos, out
      ensures Valid() && ok == (old(pos) + |ValueText(v)| <= out.Length)
      ensures ok ==> Written() == old(Written()) + ValueText(v)
    {
      match v {
        case Text(s) => ok := WriteString(s);
        case Number(n) => ok := WriteNumber(n);
        case Truth(b) => ok := WriteRaw(if b then "true" else "false");
        case Confirmation(jkt) => ok := WriteConfirmation(jkt);
        case Raw(json) => ok := WriteRaw(json);
      }
    }

    method WriteConfirmation(jkt: string) returns (ok: bool)
      requires Valid()
      modifies this`pos, out
      ensures Valid() && ok == (old(pos) + |ValueText(Confirmation(jkt))| <= out.Length)
      ensures ok ==> Written() == old(Written()) + ValueText(Confirmation(jkt))
    {
      ghost var before := Written();
      QuotedPlain("jkt");
      assert "{" + Quoted("jkt") + ":" == "{\"jkt\":";
      ok := WriteRaw("{\"jkt\":");
      if ok { ok := WriteString(jkt); }
      if ok { ok := WriteRaw("}"); }
      assert before + ("{" + Quoted("jkt") + ":") + Quoted(jkt) + "}" == before + ValueText(Confirmation(jkt));
    }

    method WriteMember(m: Member) returns (ok: bool)
      requires Valid() && (m.value.Number? ==> m.value.n <= U64_MAX)
      modifies this`pos, out
      ensures Valid() && ok == (old(pos) + |MemberText(m)| <= out.Length)
      ensures ok ==> Written() == old(Written()) + MemberText(m)
    {
      ghost var before := Written();
      ok := WriteString(m.key);
      if ok { ok := WriteRaw(":"); }
      if ok { ok := WriteValue(m.value); }
      MemberJoins(before, m);
    }
  }

  lemma QuotesJoin(before: string, inner: string)
    ensures before + ['\"'] + inner + ['\"'] == before + (['\"'] + inner + ['\"'])
  {
  }

  lemma MemberJoins(before: string, m: Member)
    ensures before + Quoted(m.key) + ":" + ValueText(m.value) == before + MemberText(m)
  {
  }

  lemma {:induction false} EscapeAppends(a: string, c: char)
    ensures Escape(a + [c]) == Escape(a) + EscapeChar(c)
  {
    if a == "" {
      assert [c] == "" + [c] && [c][1..] == "" && EscapeChar(c) + "" == EscapeChar(c);
    } else {
      assert (a + [c])[1..] == a[1..] + [c];
      EscapeAppends(a[1..], c);
      Regroup(EscapeChar(a[0]), Escape(a[1..]), EscapeChar(c));
    }
  }

  lemma {:induction false} EscapeSplits(a: string, b: string)
    ensures |Escape(a + b)| == |Escape(a)| + |Escape(b)|
  {
    if a == "" {
      assert a + b == b;
    } else {
      assert (a + b)[1..] == a[1..] + b;
      EscapeSplits(a[1..], b);
    }
  }

  lemma EscapeMore(s: string, i: nat)
    requires i < |s|
    ensures Escape(s[..i + 1]) == Escape(s[..i]) + EscapeChar(s[i])
    ensures |Escape(s[..i + 1])| <= |Escape(s)|
  {
    assert s[..i + 1] == s[..i] + [s[i]] && s == s[..i + 1] + s[i + 1..];
    EscapeAppends(s[..i], s[i]);
    EscapeSplits(s[..i + 1], s[i + 1..]);
  }

  lemma TwentyDigits(n: nat)
    requires n <= U64_MAX
    ensures |Decimal(n)| <= 20
  {
    Tens();
    DecimalLength(n, 20);
  }

  lemma Tens()
    ensures PowerOfTen(20) == 100_000_000_000_000_000_000
  {
    assert PowerOfTen(5) == 100_000 by {
      assert PowerOfTen(1) == 10 && PowerOfTen(2) == 100 && PowerOfTen(3) == 1000 && PowerOfTen(4) == 10_000;
    }
    assert PowerOfTen(10) == 10_000_000_000 by {
      assert PowerOfTen(6) == 1_000_000 && PowerOfTen(7) == 10_000_000 && PowerOfTen(8) == 100_000_000;
      assert PowerOfTen(9) == 1_000_000_000;
    }
    assert PowerOfTen(15) == 1_000_000_000_000_000 by {
      assert PowerOfTen(11) == 100_000_000_000 && PowerOfTen(12) == 1_000_000_000_000;
      assert PowerOfTen(13) == 10_000_000_000_000 && PowerOfTen(14) == 100_000_000_000_000;
    }
    assert PowerOfTen(16) == 10_000_000_000_000_000 && PowerOfTen(17) == 100_000_000_000_000_000;
    assert PowerOfTen(18) == 1_000_000_000_000_000_000 && PowerOfTen(19) == 10_000_000_000_000_000_000;
  }
}
