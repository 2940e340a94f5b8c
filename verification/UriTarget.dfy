/** The target-URI comparison: scheme and authority in one pass, then the
    path through a second buffer. */
module UriTarget {
  import opened Basics
  import opened Numerals
  import opened Uri
  import opened UriLaws
  import opened UriWriter
  import opened UriNormal

  // ── Authority ──────────────────────────────────────────────────────────

  method WriteLower(s: string, w: Out) returns (ok: bool)
    requires w.Valid()
    modifies w`len, w.buf
    ensures w.Valid() && ok == (old(w.len) + |s| <= w.buf.Length)
    ensures ok ==> w.Written() == old(w.Written()) + LowerAll(s)
  {
    ok := true;
    for i := 0 to |s|
      invariant w.Valid() && w.len == old(w.len) + i && w.Written() == old(w.Written()) + LowerAll(s)[..i]
    {
      LowerAt(s, i);
      ok := w.Push(Lower(s[i]));
      if !ok {
        return;
      }
    }
    assert LowerAll(s)[..|s|] == LowerAll(s);
  }

  /** Up to a colon, a unit reads the same with or without what follows. */
  lemma UnitInHost(auth: string, i: nat)
    requires i < Find(auth, ':')
    ensures PctUnit(auth[i..], InHost, true) == PctUnit(auth[..Find(auth, ':')][i..], InHost, true)
  {
    var end := Find(auth, ':');
    var a := auth[..end][i..];
    if end == |auth| {
      assert auth[..end] == auth;
    } else {
      assert auth[i..] == a + [':'] + auth[end + 1..];
      if PctUnit(auth[i..], InHost, true).Some? {
        UnitBefore(a, ':', auth[end + 1..], InHost, true);
      }
    }
  }

  /** A registered name, up to the port. */
  method WriteName(auth: string, w: Out) returns (end: Option<nat>)
    requires w.Valid() && (auth == "" || auth[0] != '[')
    modifies w`len, w.buf
    ensures w.Valid()
    ensures var host := auth[..HostEnd(auth)];
            if end.Some? then
              end.value == |host| && HostForm(host).Some? && w.Written() == old(w.Written()) + HostForm(host).value
            else HostForm(host).None? || old(w.len) + |host| > w.buf.Length
  {
    var hostStart := w.len;
    ghost var before := w.Written();
    ghost var host := auth[..HostEnd(auth)];
    assert HostEnd(auth) == Find(auth, ':');
    PctSoFarStart(host, before, InHost, true);
    var i := 0;
    while i < |auth| && auth[i] != ':'
      invariant w.Valid() && i <= |host| && PctSoFar(host, i, before, w.Written(), InHost, true)
    {
      ghost var written := w.Written();
      UnitInHost(auth, i);
      var next := PctChar(auth, i, w, InHost, true);
      if next.None? {
        PctSoFarFails(host, i, before, written, InHost, true, w.buf.Length);
        return None;
      }
      PctSoFarStep(host, i, before, written, InHost, true);
      i := next.value;
    }
    PctSoFarEnd(host, before, w.Written(), InHost, true);
    if w.len == hostStart {
      return None;
    }
    return Some(i);
  }

  /** A bracketed literal address. */
  method WriteLiteral(auth: string, w: Out) returns (end: Option<nat>)
    requires w.Valid() && auth != "" && auth[0] == '['
    modifies w`len, w.buf
    ensures w.Valid()
    ensures var host := auth[..HostEnd(auth)];
            if end.Some? then
              end.value == |host| && HostForm(host).Some? && w.Written() == old(w.Written()) + HostForm(host).value
            else HostForm(host).None? || old(w.len) + |host| > w.buf.Length
  {
    var close := Find(auth, ']');
    LiteralHost(auth);
    if close == |auth| {
      return None;
    }
    var literal := auth[1..close];
    if !IsLiteral(literal) {
      return None;
    }
    var ok := w.Push('[');
    if ok { ok := WriteLower(literal, w); }
    if ok { ok := w.Push(']'); }
    LowerJoins(literal);
    return if ok then Some(close + 1) else None;
  }

  lemma LowerJoins(literal: string)
    ensures forall before :: before + ['['] + LowerAll(literal) + [']'] == before + ("[" + LowerAll(literal) + "]")
  {
  }

  /** The host of an authority that begins with a bracket. */
  lemma LiteralHost(auth: string)
    requires auth != "" && auth[0] == '['
    ensures var close := Find(auth, ']');
            if close == |auth| then HostForm(auth[..HostEnd(auth)]).None?
            else
              && HostEnd(auth) == close + 1 <= |auth| && 1 <= close
              && HostForm(auth[..close + 1])
                 == if IsLiteral(auth[1..close]) then Some("[" + LowerAll(auth[1..close]) + "]") else None
  {
    var close := Find(auth, ']');
    FindNone(auth, ']');
    hide Find, HostForm;
    if close < |auth| {
      Brackets(auth, close);
      BracketedHost(auth[1..close]);
    } else {
      assert auth[..close] == auth && auth[|auth| - 1] != ']';
      Unclosed(auth);
    }
  }

  lemma Brackets(auth: string, close: nat)
    requires 1 <= close < |auth| && auth[0] == '[' && auth[close] == ']'
    ensures auth[..close + 1] == "[" + auth[1..close] + "]"
  {
  }

  lemma BracketedHost(literal: string)
    ensures HostForm("[" + literal + "]") == if IsLiteral(literal) then Some("[" + LowerAll(literal) + "]") else None
  {
    hide IsLiteral, LowerAll, PctNormal;
    var host := "[" + literal + "]";
    assert host[1..|host| - 1] == literal;
    BracketsLower(literal);
  }

  lemma Unclosed(auth: string)
    requires auth != "" && auth[0] == '[' && auth[|auth| - 1] != ']'
    ensures HostForm(auth).None?
  {
  }

  lemma BracketsLower(literal: string)
    ensures LowerAll("[" + literal + "]") == "[" + LowerAll(literal) + "]"
  {
    LowerAppends("[" + literal, "]");
    LowerAppends("[", literal);
    assert LowerAll("[") == "[" && LowerAll("]") == "]";
  }

  lemma {:induction false} DigitsGrow(s: string, k: nat)
    requires AllDigits(s) && k <= |s|
    ensures DigitsValue(s[..k]) <= DigitsValue(s)
  {
    if k == |s| {
      assert s[..k] == s;
    } else {
      DigitsGrow(s[..|s| - 1], k);
      assert s[..|s| - 1][..k] == s[..k];
    }
  }

  lemma {:induction false} DecimalIsShort(s: string)
    requires AllDigits(s) && s != ""
    ensures |Decimal(DigitsValue(s))| <= |s|
  {
    if |s| > 1 {
      DecimalIsShort(s[..|s| - 1]);
      var n := DigitsValue(s);
      assert n / 10 == DigitsValue(s[..|s| - 1]);
    }
  }

  /** The port's number, if it is one a port can have. */
  method ReadPort(digits: string) returns (port: Option<nat>)
    ensures port == if AllDigits(digits) && DigitsValue(digits) <= 65_535 then Some(DigitsValue(digits)) else None
  {
    var value := 0;
    for i := 0 to |digits|
      invariant AllDigits(digits[..i]) && value == DigitsValue(digits[..i]) <= 65_535
    {
      if !IsDigit(digits[i]) {
        return None;
      }
      assert digits[..i + 1][..i] == digits[..i];
      value := value * 10 + (digits[i] as int - '0' as int);
      if value > 65_535 {
        if AllDigits(digits) { DigitsGrow(digits, i + 1); }
        return None;
      }
    }
    assert digits[..|digits|] == digits;
    return Some(value);
  }

  method WritePort(text: string, default_: nat, w: Out) returns (ok: bool)
    requires w.Valid()
    modifies w`len, w.buf
    ensures w.Valid()
    ensures ok ==> PortForm(text, default_).Some? && w.Written() == old(w.Written()) + PortForm(text, default_).value
    ensures !ok ==> PortForm(text, default_).None? || old(w.len) + |text| > w.buf.Length
  {
    if text == "" {
      assert w.Written() + "" == w.Written();
      return true;
    }
    if text[0] != ':' {
      return false;
    }
    var digits := text[1..];
    if digits != "" {
      var port := ReadPort(digits);
      if port.None? {
        return false;
      }
      if port.value != default_ {
        DecimalIsShort(digits);
        ok := w.Push(':');
        if ok { ok := w.WriteDecimal(port.value); }
        return;
      }
    }
    assert w.Written() + "" == w.Written();
    return true;
  }

  lemma {:induction false} FormsAreShort(auth: string, d: nat)
    ensures HostForm(auth).Some? ==> |HostForm(auth).value| <= |auth|
    ensures PortForm(auth, d).Some? ==> |PortForm(auth, d).value| <= |auth|
  {
    if auth != "" && auth[1..] != "" && AllDigits(auth[1..]) { DecimalIsShort(auth[1..]); }
  }

  method WriteAuthority(auth: string, default_: nat, w: Out) returns (ok: bool)
    requires w.Valid()
    modifies w`len, w.buf
    ensures w.Valid()
    ensures ok ==> AuthorityForm(auth, default_).Some? && w.Written() == old(w.Written()) + AuthorityForm(auth, default_).value
    ensures !ok ==> AuthorityForm(auth, default_).None? || old(w.len) + |auth| > w.buf.Length
  {
    hide HostForm, PortForm, HostEnd;
    if '@' in auth {
      return false;
    }
    var end;
    if auth != "" && auth[0] == '[' {
      end := WriteLiteral(auth, w);
    } else {
      end := WriteName(auth, w);
    }
    if end.None? {
      return false;
    }
    FormsAreShort(auth[..end.value], default_);
    ok := WritePort(auth[end.value..], default_, w);
  }

  // ── The whole URI ──────────────────────────────────────────────────────

  /** Scheme and authority; where the path begins. */
  method WriteOrigin(u: string, w: Out) returns (pathAt: Option<nat>)
    requires w.Valid()
    modifies w`len, w.buf
    ensures w.Valid()
    ensures match pathAt
            case Some(at) =>
              && at <= |u| && PartsOf(u).Some? && PartsOf(u).value.path == u[at..]
              && var p := PartsOf(u).value;
                 && DefaultPort(p.scheme).Some? && AuthorityForm(p.auth, DefaultPort(p.scheme).value).Some?
                 && w.Written() == old(w.Written()) + (LowerAll(p.scheme) + "://" + AuthorityForm(p.auth, DefaultPort(p.scheme).value).value)
                 && w.len <= old(w.len) + at
            case None =>
              || PartsOf(u).None?
              || DefaultPort(PartsOf(u).value.scheme).None?
              || AuthorityForm(PartsOf(u).value.auth, DefaultPort(PartsOf(u).value.scheme).value).None?
              || old(w.len) + |u| > w.buf.Length
  {
    ghost var before := w.Written();
    var colon := Find(u, ':');
    if colon == |u| {
      return None;
    }
    var port := DefaultPort(u[..colon]);
    if port.None? {
      return None;
    }
    var ok := WriteLower(u[..colon], w);
    if !ok || colon + 3 > |u| || u[colon + 1..colon + 3] != "//" {
      return None;
    }
    ok := w.Extend("://");
    if !ok {
      return None;
    }
    var end := AuthorityEnd(u, colon + 3);
    var auth := u[colon + 3..end];
    ok := WriteAuthority(auth, port.value, w);
    if !ok {
      return None;
    }
    AuthorityIsShort(auth, port.value);
    OriginJoins(before, LowerAll(u[..colon]), AuthorityForm(auth, port.value).value);
    return Some(end);
  }

  lemma OriginJoins(before: string, scheme: string, auth: string)
    ensures before + scheme + "://" + auth == before + (scheme + "://" + auth)
  {
  }

  lemma AuthorityIsShort(auth: string, d: nat)
    requires AuthorityForm(auth, d).Some?
    ensures |AuthorityForm(auth, d).value| <= |auth|
  {
    FormsAreShort(auth[..HostEnd(auth)], d);
    FormsAreShort(auth[HostEnd(auth)..], d);
  }

  lemma PathIsShort(path: string)
    requires path != "" && path[0] == '/'
    ensures |RemoveDots(path)| <= |path|
  {
    SplitJoin(path[1..]);
    WalkIsShort([], Split(path[1..]));
  }

  lemma {:induction false} WalkIsShort(stack: seq<string>, segs: seq<string>)
    requires segs != []
    ensures |Join(Walk(stack, segs))| <= |Join(stack)| + |Join(segs)|
    decreases |segs|
  {
    StepIsShort(stack, segs[0]);
    if |segs| == 1 {
      assert segs == [segs[0]];
      JoinPush(Step(stack, segs[0]), "");
      assert Step(stack, segs[0]) + [] == Step(stack, segs[0]);
      assert Join(segs) == "/" + segs[0] + Join(segs[1..]);
    } else {
      WalkIsShort(Step(stack, segs[0]), segs[1..]);
    }
  }

  lemma StepIsShort(stack: seq<string>, seg: string)
    ensures |Join(Step(stack, seg))| <= |Join(stack)| + (if IsDot(seg) then 0 else 1 + |seg|)
  {
    JoinPush(stack, seg);
    if stack != [] {
      assert stack == Pop(stack) + [stack[|stack| - 1]];
      JoinPush(Pop(stack), stack[|stack| - 1]);
    }
  }

  /** The path, after its own pass, through a buffer of its own. */
  method WritePath(path: string, w: Out) returns (ok: bool)
    requires w.Valid() && |path| <= MAX_URI && (path == "" || path[0] == '/')
    modifies w`len, w.buf
    ensures w.Valid()
    ensures ok ==> PathForm(path).Some? && w.Written() == old(w.Written()) + PathForm(path).value
    ensures !ok ==> PathForm(path).None? || old(w.len) + (if path == "" then 1 else |path|) > w.buf.Length
  {
    if path == "" {
      ok := w.Push('/');
      return;
    }
    var d := new Out(MAX_URI);
    ok := WriteNormal(path, d, InPath, false);
    if !ok {
      return;
    }
    assert d.Written() == PctNormal(path, InPath, false).value;
    SlashStays(path);
    ok := RemoveDotSegments(d.buf[..d.len], w);
  }

  /** The normal form of a URI without query or fragment. */
  method WriteForm(u: string, w: Out) returns (ok: bool)
    requires w.Valid() && w.len == 0 && w.buf.Length == MAX_URI && |u| <= MAX_URI
    modifies w`len, w.buf
    ensures w.Valid()
    ensures ok ==> FormUncut(u) == Some(w.Written())
    ensures !ok ==> FormUncut(u).None? || |FormUncut(u).value| > MAX_URI
  {
    ghost var before := w.Written();
    assert before == "";
    var pathAt := WriteOrigin(u, w);
    if pathAt.None? {
      return false;
    }
    ghost var p := PartsOf(u).value;
    ghost var head := LowerAll(p.scheme) + "://" + AuthorityForm(p.auth, DefaultPort(p.scheme).value).value;
    assert before + head == head;
    ok := WritePath(u[pathAt.value..], w);
    FormIsLong(p, head);
  }

  /** The normal form by its two halves. */
  lemma FormIsLong(p: Parts, head: string)
    requires (p.path == "" || p.path[0] == '/') && DefaultPort(p.scheme).Some?
    requires AuthorityForm(p.auth, DefaultPort(p.scheme).value).Some?
    requires head == LowerAll(p.scheme) + "://" + AuthorityForm(p.auth, DefaultPort(p.scheme).value).value
    ensures FormOf(p) == if PathForm(p.path).None? then None else Some(head + PathForm(p.path).value)
    ensures PathForm(p.path).Some? ==> PathForm(p.path).value != ""
  {
    if PathForm(p.path).Some? { PathFixed(p.path); }
  }

  /** The normal form of `uri`, written where the caller wants it. */
  method Normalize(uri: string, w: Out) returns (ok: bool)
    requires w.Valid() && w.len == 0 && w.buf.Length == MAX_URI
    modifies w`len, w.buf
    ensures w.Valid()
    ensures ok <==> Normal(uri).Some?
    ensures ok ==> w.Written() == Normal(uri).value
  {
    if |uri| > MAX_URI {
      return false;
    }
    var q, f := Find(uri, '?'), Find(uri, '#');
    ok := WriteForm(uri[..if q < f then q else f], w);
  }

  lemma PathFormIsShort(path: string)
    requires (path == "" || path[0] == '/') && PathForm(path).Some?
    ensures |PathForm(path).value| <= (if path == "" then 1 else |path|)
  {
    if path != "" {
      SlashStays(path);
      PathIsShort(PctNormal(path, InPath, false).value);
    }
  }

  /** A normal form is never longer than what it is of, but for the slash
      that an empty path becomes. */
  lemma FormFits(u: string)
    requires FormUncut(u).Some?
    ensures |FormUncut(u).value| <= |u| + (if PartsOf(u).value.path == "" then 1 else 0)
  {
    var p := PartsOf(u).value;
    TextOfParts(u);
    AuthorityIsShort(p.auth, DefaultPort(p.scheme).value);
    PathFormIsShort(p.path);
  }

  /** Whether `htu` names the request made to `origin` and `path`. */
  method HtuMatches(htu: string, origin: string, path: string) returns (matches: bool)
    ensures matches <==>
      && path != "" && path[0] == '/' && |origin| + |path| <= MAX_URI
      && Normal(origin + path).Some? && Normal(htu) == Normal(origin + path)
  {
    if path == "" || path[0] != '/' || |origin| + |path| > MAX_URI {
      return false;
    }
    var want := new Out(MAX_URI);
    var got := new Out(MAX_URI);
    var wantOk := Normalize(origin + path, want);
    var gotOk := Normalize(htu, got);
    return wantOk && gotOk && want.buf[..want.len] == got.buf[..got.len];
  }
}
