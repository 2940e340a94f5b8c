/** The normal form is a normal form: normalising it again changes nothing,
    and spellings that RFC 3986 calls equivalent share it. */
module UriLaws {
  import opened Basics
  import opened Numerals
  import opened Uri

  // ── Finding ────────────────────────────────────────────────────────────

  lemma FindIs(s: string, c: char, i: nat)
    requires i <= |s| && (forall j :: 0 <= j < i ==> s[j] != c) && (i < |s| ==> s[i] == c)
    ensures Find(s, c) == i
  {
    var k := Find(s, c);
    assert forall j :: 0 <= j < k ==> s[..k][j] == s[j];
  }

  lemma FindNone(s: string, c: char)
    ensures Find(s, c) == |s| <==> c !in s
  {
    if Find(s, c) == |s| { assert s[..|s|] == s; }
  }

  // ── Letters ────────────────────────────────────────────────────────────

  lemma {:induction false} LowerAt(s: string, i: nat)
    requires i < |s|
    ensures LowerAll(s)[i] == Lower(s[i])
  {
    if i > 0 { LowerAt(s[1..], i - 1); }
  }

  lemma {:induction false} LowerAppends(a: string, b: string)
    ensures LowerAll(a + b) == LowerAll(a) + LowerAll(b)
  {
    if a != "" {
      assert (a + b)[1..] == a[1..] + b;
      LowerAppends(a[1..], b);
    } else {
      assert a + b == b;
    }
  }

  lemma {:induction false} LowerTwice(s: string)
    ensures LowerAll(LowerAll(s)) == LowerAll(s)
  {
    if s != "" { LowerTwice(s[1..]); }
  }

  // ── Percent-encoding ───────────────────────────────────────────────────

  lemma HexOfDigit(v: nat)
    requires v < 16
    ensures HexValue(HexDigit(v)) == Some(v)
  {
  }

  lemma FoldedStays(c: char, lower: bool, part: Part)
    ensures Fold(Fold(c, lower), lower) == Fold(c, lower)
    ensures IsUnreserved(c) ==> IsUnreserved(Fold(c, lower))
    ensures Allowed(c, part) ==> Allowed(Fold(c, lower), part) && Fold(c, lower) != '%'
  {
  }

  /** A normal unit reads as itself, whatever follows. */
  lemma UnitFixed(s: string, part: Part, lower: bool, x: string)
    requires s != "" && PctUnit(s, part, lower).Some?
    ensures var text := PctUnit(s, part, lower).value.0;
            PctUnit(text + x, part, lower) == Some((text, |text|))
  {
    var (text, n) := PctUnit(s, part, lower).value;
    if s[0] == '%' {
      var hi := HexValue(s[1]).value;
      var lo := HexValue(s[2]).value;
      HexOfDigit(hi);
      HexOfDigit(lo);
      FoldedStays((16 * hi + lo) as char, lower, part);
    } else {
      FoldedStays(s[0], lower, part);
    }
  }

  /** Normalising twice is normalising once. */
  lemma {:induction false} PctFixed(s: string, part: Part, lower: bool)
    requires PctNormal(s, part, lower).Some?
    ensures PctNormal(PctNormal(s, part, lower).value, part, lower) == PctNormal(s, part, lower)
  {
    if s != "" {
      var (text, n) := PctUnit(s, part, lower).value;
      var rest := PctNormal(s[n..], part, lower).value;
      PctFixed(s[n..], part, lower);
      UnitFixed(s, part, lower, rest);
      assert (text + rest)[|text|..] == rest;
    }
  }

  predicate Plain(s: string, part: Part) {
    forall i :: 0 <= i < |s| ==> Allowed(s[i], part) || s[i] == '%'
  }

  lemma {:induction false} PctIsPlain(s: string, part: Part, lower: bool)
    requires PctNormal(s, part, lower).Some?
    ensures Plain(PctNormal(s, part, lower).value, part)
  {
    if s != "" {
      var (text, n) := PctUnit(s, part, lower).value;
      PctIsPlain(s[n..], part, lower);
      if s[0] == '%' {
        FoldedStays((16 * HexValue(s[1]).value + HexValue(s[2]).value) as char, lower, part);
        HexOfDigit(HexValue(s[1]).value);
        HexOfDigit(HexValue(s[2]).value);
      } else {
        FoldedStays(s[0], lower, part);
      }
    }
  }

  /** A unit reads the same whatever follows it. */
  lemma UnitAppend(a: string, b: string, part: Part, lower: bool)
    requires a != "" && PctUnit(a, part, lower).Some?
    ensures PctUnit(a + b, part, lower) == PctUnit(a, part, lower)
    ensures (a + b)[PctUnit(a, part, lower).value.1..] == a[PctUnit(a, part, lower).value.1..] + b
  {
    assert (a + b)[0] == a[0];
    if a[0] == '%' { assert (a + b)[1] == a[1] && (a + b)[2] == a[2]; }
  }

  function Appended(a: Option<string>, b: Option<string>): Option<string> {
    match (a, b)
    case (Some(x), Some(y)) => Some(x + y)
    case _ => None
  }

  lemma AppendedThrice(text: string, a: Option<string>, b: Option<string>)
    ensures Appended(Some(text), Appended(a, b)) == Appended(Appended(Some(text), a), b)
  {
    if a.Some? && b.Some? { assert text + (a.value + b.value) == text + a.value + b.value; }
  }

  lemma PctStep(s: string, part: Part, lower: bool)
    requires s != "" && PctUnit(s, part, lower).Some?
    ensures var (text, n) := PctUnit(s, part, lower).value;
            PctNormal(s, part, lower) == Appended(Some(text), PctNormal(s[n..], part, lower))
  {
  }

  /** Components that normalise can be put together. */
  lemma {:induction false} PctAppend(a: string, b: string, part: Part, lower: bool)
    requires PctNormal(a, part, lower).Some?
    ensures PctNormal(a + b, part, lower) == Appended(PctNormal(a, part, lower), PctNormal(b, part, lower))
  {
    if a == "" {
      assert a + b == b;
      if PctNormal(b, part, lower).Some? { assert "" + PctNormal(b, part, lower).value == PctNormal(b, part, lower).value; }
    } else {
      var (text, n) := PctUnit(a, part, lower).value;
      UnitAppend(a, b, part, lower);
      PctStep(a + b, part, lower);
      PctStep(a, part, lower);
      PctAppend(a[n..], b, part, lower);
      AppendedThrice(text, PctNormal(a[n..], part, lower), PctNormal(b, part, lower));
    }
  }

  /** A unit does not reach a character that is no hex digit and no `%`. */
  lemma UnitBefore(a: string, c: char, b: string, part: Part, lower: bool)
    requires a != "" && HexValue(c).None? && PctUnit(a + [c] + b, part, lower).Some?
    ensures PctUnit(a, part, lower) == PctUnit(a + [c] + b, part, lower)
    ensures (a + [c] + b)[PctUnit(a, part, lower).value.1..] == a[PctUnit(a, part, lower).value.1..] + [c] + b
  {
    var s := a + [c] + b;
    assert s[0] == a[0] && s[|a|] == c;
    assert |a| > 1 ==> s[1] == a[1];
    assert |a| > 2 ==> s[2] == a[2];
  }

  lemma {:induction false} PctBefore(a: string, c: char, b: string, part: Part, lower: bool)
    requires HexValue(c).None? && PctNormal(a + [c] + b, part, lower).Some?
    ensures PctNormal(a, part, lower).Some?
  {
    if a != "" {
      UnitBefore(a, c, b, part, lower);
      PctBefore(a[PctUnit(a, part, lower).value.1..], c, b, part, lower);
    }
  }

  ghost predicate Fixed(s: string) { PctNormal(s, InPath, false) == Some(s) }

  lemma SlashFixed()
    ensures Fixed("/")
  {
    assert PctUnit("/", InPath, false) == Some(("/", 1));
    assert "/"[1..] == "" && "/" + "" == "/";
    PctStep("/", InPath, false);
  }

  lemma SplitsAlike(x: string, y: string, a: string, b: string)
    requires x + y == a + b && |x| <= |a| && |y| <= |b|
    ensures x == a && y == b
  {
    assert x == (x + y)[..|x|] && a == (a + b)[..|a|] && |x + y| == |x| + |y|;
    assert y == (x + y)[|x|..] && b == (a + b)[|a|..];
  }

  /** A path read on either side of one of its slashes. */
  lemma PctAround(a: string, b: string)
    requires PctNormal(a, InPath, false).Some?
    ensures PctNormal(a + "/" + b, InPath, false)
         == Appended(PctNormal(a, InPath, false), Appended(Some("/"), PctNormal(b, InPath, false)))
  {
    assert a + "/" + b == a + ("/" + b);
    PctAppend(a, "/" + b, InPath, false);
    SlashFixed();
    PctAppend("/", b, InPath, false);
  }

  /** What lies on either side of a slash in a fixed path is fixed. */
  lemma FixedAround(a: string, b: string)
    requires Fixed(a + "/" + b)
    ensures Fixed(a) && Fixed(b)
  {
    PctBefore(a, '/', b, InPath, false);
    PctAround(a, b);
    BothSides(a, b, PctNormal(a, InPath, false), PctNormal(b, InPath, false));
  }

  lemma BothSides(a: string, b: string, x: Option<string>, y: Option<string>)
    requires Appended(x, Appended(Some("/"), y)) == Some(a + "/" + b)
    requires x.Some? ==> |x.value| <= |a|
    requires y.Some? ==> |y.value| <= |b|
    ensures x == Some(a) && y == Some(b)
  {
    assert a + "/" + b == a + ("/" + b);
    SidesFixed(a, b, x.value, y.value);
  }

  lemma SidesFixed(a: string, b: string, x: string, y: string)
    requires x + ("/" + y) == a + ("/" + b) && |x| <= |a| && |y| <= |b|
    ensures x == a && y == b
  {
    SplitsAlike(x, "/" + y, a, "/" + b);
    SplitsAlike("/", y, "/", b);
  }

  lemma FixedTogether(a: string, b: string)
    requires Fixed(a) && Fixed(b)
    ensures Fixed("/" + a + b)
  {
    PctAppend(a, b, InPath, false);
    SlashFixed();
    PctAppend("/", a + b, InPath, false);
    assert "/" + a + b == "/" + (a + b);
  }

  // ── Dot segments ───────────────────────────────────────────────────────

  predicate NoSlash(segs: seq<string>) { forall i :: 0 <= i < |segs| ==> '/' !in segs[i] }
  predicate NoDots(segs: seq<string>) { forall i :: 0 <= i < |segs| ==> !IsDot(segs[i]) }
  ghost predicate AllFixed(segs: seq<string>) { forall i :: 0 <= i < |segs| ==> Fixed(segs[i]) }

  lemma {:induction false} SplitJoin(s: string)
    ensures Join(Split(s)) == "/" + s
    ensures NoSlash(Split(s))
  {
    var i := Find(s, '/');
    FindNone(s, '/');
    if i < |s| {
      SplitJoin(s[i + 1..]);
      assert Split(s)[1..] == Split(s[i + 1..]);
      assert "/" + s == "/" + s[..i] + ("/" + s[i + 1..]);
    } else {
      assert Join([s]) == "/" + s + "";
    }
  }

  lemma JoinStarts(segs: seq<string>)
    requires segs != []
    ensures Join(segs) != "" && Join(segs)[0] == '/' && Join(segs)[1..] == segs[0] + Join(segs[1..])
  {
    assert Join(segs) == "/" + (segs[0] + Join(segs[1..]));
  }

  /** The first segment ends at the first slash. */
  lemma SplitStep(seg: string, rest: string)
    requires '/' !in seg
    ensures Split(seg) == [seg]
    ensures Split(seg + "/" + rest) == [seg] + Split(rest)
  {
    FindNone(seg, '/');
    var s := seg + "/" + rest;
    FindIs(s, '/', |seg|);
    assert s[..|seg|] == seg && s[|seg| + 1..] == rest;
  }

  lemma {:induction false} JoinSplit(segs: seq<string>)
    requires segs != [] && NoSlash(segs)
    ensures Join(segs) != "" && Join(segs)[0] == '/' && Split(Join(segs)[1..]) == segs
  {
    JoinStarts(segs);
    if |segs| == 1 {
      assert segs[0] + Join([]) == segs[0] && segs == [segs[0]];
      SplitStep(segs[0], "");
    } else {
      JoinSplit(segs[1..]);
      SplitMore(segs[0], Join(segs[1..]));
      assert segs == [segs[0]] + segs[1..];
    }
  }

  lemma SplitMore(seg: string, joined: string)
    requires '/' !in seg && joined != "" && joined[0] == '/'
    ensures Split(seg + joined) == [seg] + Split(joined[1..])
  {
    SlashFirst(joined);
    assert seg + joined == seg + "/" + joined[1..];
    SplitStep(seg, joined[1..]);
  }

  lemma SlashFirst(s: string)
    requires s != "" && s[0] == '/'
    ensures s == "/" + s[1..]
  {
  }

  /** Segments without dots are all kept. */
  lemma {:induction false} WalkKeeps(stack: seq<string>, segs: seq<string>)
    requires segs != [] && NoDots(segs)
    ensures Walk(stack, segs) == stack + segs
    decreases |segs|
  {
    if |segs| > 1 {
      WalkKeeps(stack + [segs[0]], segs[1..]);
      assert stack + [segs[0]] + segs[1..] == stack + segs;
    }
  }

  /** What is left is some of the segments there were, without dots. */
  lemma {:induction false} WalkLeaves(stack: seq<string>, segs: seq<string>)
    requires segs != [] && NoDots(stack)
    ensures Walk(stack, segs) != [] && NoDots(Walk(stack, segs))
    ensures NoSlash(stack) && NoSlash(segs) ==> NoSlash(Walk(stack, segs))
    ensures AllFixed(stack) && AllFixed(segs) ==> AllFixed(Walk(stack, segs))
    decreases |segs|
  {
    if |segs| > 1 {
      WalkLeaves(Step(stack, segs[0]), segs[1..]);
    }
  }

  lemma {:induction false} JoinFixed(segs: seq<string>)
    requires AllFixed(segs)
    ensures Fixed(Join(segs))
  {
    if segs != [] {
      JoinFixed(segs[1..]);
      FixedTogether(segs[0], Join(segs[1..]));
    }
  }

  lemma {:induction false} SplitFixed(s: string)
    requires Fixed(s)
    ensures AllFixed(Split(s))
  {
    var i := Find(s, '/');
    if i < |s| {
      assert s == s[..i] + "/" + s[i + 1..];
      FixedAround(s[..i], s[i + 1..]);
      SplitFixed(s[i + 1..]);
    }
  }

  /** A path whose dot segments are gone has none. */
  lemma RemoveDotsTwice(path: string)
    requires path != "" && path[0] == '/'
    ensures RemoveDots(path) != "" && RemoveDots(path)[0] == '/'
    ensures RemoveDots(RemoveDots(path)) == RemoveDots(path)
  {
    var kept := Walk([], Split(path[1..]));
    SplitJoin(path[1..]);
    WalkLeaves([], Split(path[1..]));
    JoinSplit(kept);
    WalkKeeps([], kept);
    assert [] + kept == kept;
  }

  /** Removing them leaves the rest encoded as it was. */
  lemma RemoveDotsFixed(path: string)
    requires path != "" && path[0] == '/' && Fixed(path)
    ensures Fixed(RemoveDots(path))
  {
    assert path == "" + "/" + path[1..];
    FixedAround("", path[1..]);
    SplitFixed(path[1..]);
    WalkLeaves([], Split(path[1..]));
    JoinFixed(Walk([], Split(path[1..])));
  }

  lemma PathFixed(path: string)
    requires (path == "" || path[0] == '/') && PathForm(path).Some?
    ensures var p := PathForm(path).value;
            p != "" && p[0] == '/' && PathForm(p) == Some(p) && Plain(p, InPath)
  {
    if path == "" {
      assert Split("") == [""];
      assert Join([""]) == "/";
      SlashFixed();
    } else {
      var decoded := PctNormal(path, InPath, false).value;
      SlashStays(path);
      PctFixed(path, InPath, false);
      RemoveDotsTwice(decoded);
      RemoveDotsFixed(decoded);
      PctIsPlain(RemoveDots(decoded), InPath, false);
    }
  }

  // ── Ports and authorities ──────────────────────────────────────────────

  lemma PortFixed(port: string, d: nat)
    requires PortForm(port, d).Some?
    ensures var p := PortForm(port, d).value;
            PortForm(p, d) == Some(p) && (p == "" || p[0] == ':')
            && forall i :: 0 < i < |p| ==> IsDigit(p[i])
  {
    var p := PortForm(port, d).value;
    if p != "" {
      assert p[1..] == Decimal(DigitsValue(port[1..]));
    }
  }

  /** A host in its normal form: no character that could end it early. */
  ghost predicate HostText(h: string) {
    && h != "" && HostForm(h) == Some(h)
    && (forall p: string :: p == "" || p[0] == ':' ==> HostEnd(h + p) == |h|)
    && (forall i :: 0 <= i < |h| ==> h[i] !in "/?#@")
  }

  lemma {:induction false} LiteralLower(s: string)
    requires IsLiteral(s)
    ensures IsLiteral(LowerAll(s))
    ensures forall i :: 0 <= i < |s| ==> LowerAll(s)[i] !in "/?#@]["
  {
    forall i | 0 <= i < |s|
      ensures (HexValue(LowerAll(s)[i]).Some? || LowerAll(s)[i] in ":.") && LowerAll(s)[i] !in "/?#@]["
    {
      LowerAt(s, i);
    }
  }

  lemma BracketFixed(host: string)
    requires host != "" && host[0] == '[' && HostForm(host).Some?
    ensures HostText(HostForm(host).value)
  {
    var inner := host[1..|host| - 1];
    var h := LowerAll(host);
    assert host == "[" + inner + "]";
    LowerAppends("[" + inner, "]");
    LowerAppends("[", inner);
    assert LowerAll("[") == "[" && LowerAll("]") == "]";
    assert h == "[" + LowerAll(inner) + "]";
    assert h[1..|h| - 1] == LowerAll(inner);
    LiteralLower(inner);
    LowerTwice(host);
    forall p: string | p == "" || p[0] == ':' ensures HostEnd(h + p) == |h| {
      FindIs(h + p, ']', |h| - 1);
    }
  }

  /** In a name that is all host characters, a port ends it. */
  lemma NameEnds(h: string, p: string)
    requires h != "" && Plain(h, InHost) && (p == "" || p[0] == ':')
    ensures HostEnd(h + p) == |h|
  {
    assert (h + p)[0] == h[0];
    FindIs(h + p, ':', |h|);
  }

  lemma NameFixed(host: string)
    requires host != "" && host[0] != '[' && HostForm(host).Some?
    ensures HostText(HostForm(host).value)
  {
    var h := PctNormal(host, InHost, true).value;
    PctFixed(host, InHost, true);
    PctIsPlain(host, InHost, true);
    PlainStarts(h);
    forall p: string | p == "" || p[0] == ':' ensures HostEnd(h + p) == |h| {
      NameEnds(h, p);
    }
  }

  lemma PlainStarts(h: string)
    requires h != "" && Plain(h, InHost)
    ensures h[0] != '[' && forall i :: 0 <= i < |h| ==> h[i] !in "/?#@"
  {
  }

  lemma AuthorityFixed(auth: string, d: nat)
    requires AuthorityForm(auth, d).Some?
    ensures var a := AuthorityForm(auth, d).value;
            AuthorityForm(a, d) == Some(a) && forall i :: 0 <= i < |a| ==> a[i] !in "/?#"
  {
    hide HostEnd, PortForm, HostText;
    var end := HostEnd(auth);
    var h := HostForm(auth[..end]).value;
    var p := PortForm(auth[end..], d).value;
    if auth[..end][0] == '[' { BracketFixed(auth[..end]); } else { NameFixed(auth[..end]); }
    PortFixed(auth[end..], d);
    hide HostForm;
    TextThenPort(h, p, d);
  }

  /** A host and a port in their normal forms are an authority in its own. */
  lemma TextThenPort(h: string, p: string, d: nat)
    requires HostText(h) && PortForm(p, d) == Some(p) && (p == "" || p[0] == ':')
    requires forall i :: 0 < i < |p| ==> IsDigit(p[i])
    ensures AuthorityForm(h + p, d) == Some(h + p) && forall i :: 0 <= i < |h + p| ==> (h + p)[i] !in "/?#"
  {
    hide HostForm, PortForm;
    var a := h + p;
    assert HostEnd(a) == |h|;
    hide HostEnd;
    assert a[..|h|] == h && a[|h|..] == p;
    forall i | 0 <= i < |a| ensures a[i] !in "/?#@" {
      if i < |h| { assert a[i] == h[i]; } else { PortChar(p, i - |h|); }
    }
  }

  lemma PortChar(p: string, i: nat)
    requires i < |p| && p[0] == ':' && forall i :: 0 < i < |p| ==> IsDigit(p[i])
    ensures p[i] !in "/?#@"
  {
    if i > 0 { assert IsDigit(p[i]); }
  }

  // ── Whole URIs ─────────────────────────────────────────────────────────

  lemma SchemeText(scheme: string)
    requires DefaultPort(scheme).Some?
    ensures DefaultPort(LowerAll(scheme)) == DefaultPort(scheme)
    ensures forall i :: 0 <= i < |LowerAll(scheme)| ==> LowerAll(scheme)[i] !in ":/?#"
  {
    LowerTwice(scheme);
  }

  predicate Unbroken(s: string) { forall i :: 0 <= i < |s| ==> s[i] != '?' && s[i] != '#' }

  lemma CutNothing(u: string)
    requires Unbroken(u)
    ensures Cut(u) == u
  {
    FindIs(u, '?', |u|);
    FindIs(u, '#', |u|);
  }

  ghost predicate GoodParts(p: Parts) {
    && DefaultPort(p.scheme).Some? && ':' !in p.scheme && Unbroken(p.scheme)
    && '/' !in p.auth && Unbroken(p.auth) && Unbroken(p.path) && (p.path == "" || p.path[0] == '/')
  }

  function Text(p: Parts): string { p.scheme + "://" + (p.auth + p.path) }

  /** Parts that cannot run into each other are read back from their text. */
  lemma PartsOfText(p: Parts)
    requires ':' !in p.scheme && '/' !in p.auth && (p.path == "" || p.path[0] == '/')
    ensures PartsOf(Text(p)) == Some(p)
  {
    hide Find;
    var u := Text(p);
    var start := |p.scheme| + 3;
    FindIs(u, ':', |p.scheme|);
    assert u[..|p.scheme|] == p.scheme && u[|p.scheme| + 1..start] == "//";
    assert u[start..] == p.auth + p.path;
    FindIs(u[start..], '/', |p.auth|);
    assert u[start..start + |p.auth|] == p.auth && u[start + |p.auth|..] == p.path;
  }

  lemma TextOfParts(u: string)
    requires PartsOf(u).Some?
    ensures Text(PartsOf(u).value) == u
    ensures ':' !in PartsOf(u).value.scheme && '/' !in PartsOf(u).value.auth
  {
    var colon := Find(u, ':');
    var end := AuthorityEnd(u, colon + 3);
    assert u[colon + 1] == u[colon + 1..colon + 3][0] && u[colon + 2] == u[colon + 1..colon + 3][1];
    assert u[..colon + 3] == u[..colon] + "://";
    JoinsAt(u, colon + 3, end);
  }

  lemma JoinsAt(u: string, i: nat, j: nat)
    requires i <= j <= |u|
    ensures u == u[..i] + (u[i..j] + u[j..])
  {
  }

  lemma TextUnbroken(p: Parts)
    ensures Unbroken(Text(p)) <==> Unbroken(p.scheme) && Unbroken(p.auth) && Unbroken(p.path)
  {
    var u := Text(p);
    var n := |p.scheme|;
    assert forall i :: 0 <= i < n ==> u[i] == p.scheme[i];
    assert forall i :: 0 <= i < |p.auth| ==> u[n + 3 + i] == p.auth[i];
    assert forall i :: 0 <= i < |p.path| ==> u[n + 3 + |p.auth| + i] == p.path[i];
    assert u[n] == ':' && u[n + 1] == '/' && u[n + 2] == '/';
    if Unbroken(p.scheme) && Unbroken(p.auth) && Unbroken(p.path) {
      forall i | 0 <= i < |u| ensures u[i] != '?' && u[i] != '#' {
        if n + 3 + |p.auth| <= i { assert u[i] == p.path[i - n - 3 - |p.auth|]; }
        else if n + 3 <= i { assert u[i] == p.auth[i - n - 3]; }
      }
    }
  }

  /** A normal form is the text of normal parts. */
  lemma FormIsText(p: Parts, q: Parts)
    requires p.path == "" || p.path[0] == '/'
    requires DefaultPort(p.scheme).Some? && q.scheme == LowerAll(p.scheme)
    requires AuthorityForm(p.auth, DefaultPort(p.scheme).value) == Some(q.auth) && PathForm(p.path) == Some(q.path)
    ensures FormOf(p) == Some(Text(q))
  {
    assert q.scheme + "://" + q.auth + q.path == Text(q);
  }

  lemma CutIsUnbroken(uri: string)
    ensures Unbroken(Cut(uri))
  {
    var q := Find(uri, '?');
    var f := Find(uri, '#');
    assert forall i :: 0 <= i < q ==> uri[..q][i] == uri[i];
    assert forall i :: 0 <= i < f ==> uri[..f][i] == uri[i];
  }

  lemma PlainUnbroken(s: string, part: Part)
    requires Plain(s, part)
    ensures Unbroken(s)
  {
  }

  /** What the parts of a normal form are. */
  ghost predicate AreNormal(q: Parts, d: nat) {
    && GoodParts(q) && DefaultPort(q.scheme) == Some(d) && LowerAll(q.scheme) == q.scheme
    && AuthorityForm(q.auth, d) == Some(q.auth)
    && PathForm(q.path) == Some(q.path)
  }

  lemma NormalPartsText(q: Parts, d: nat)
    requires AreNormal(q, d)
    ensures FormOf(q) == Some(Text(q))
  {
    FormIsText(q, q);
  }

  lemma PartsAreNormal(p: Parts, d: nat, auth: string, path: string)
    requires (p.path == "" || p.path[0] == '/') && DefaultPort(p.scheme) == Some(d)
    requires AuthorityForm(p.auth, d) == Some(auth) && PathForm(p.path) == Some(path)
    ensures AreNormal(Parts(LowerAll(p.scheme), auth, path), d)
  {
    SchemeText(p.scheme);
    LowerTwice(p.scheme);
    AuthorityFixed(p.auth, d);
    PathFixed(p.path);
    PlainUnbroken(path, InPath);
    NotIn(LowerAll(p.scheme), auth);
  }

  lemma NotIn(scheme: string, auth: string)
    ensures (forall i :: 0 <= i < |scheme| ==> scheme[i] !in ":/?#") ==> ':' !in scheme && Unbroken(scheme)
    ensures (forall i :: 0 <= i < |auth| ==> auth[i] !in "/?#") ==> '/' !in auth && Unbroken(auth)
  {
  }

  lemma FormTwice(uri: string)
    requires Form(uri).Some?
    ensures Form(Form(uri).value) == Form(uri)
  {
    var p := PartsOf(Cut(uri)).value;
    var d := DefaultPort(p.scheme).value;
    var q := Parts(LowerAll(p.scheme), AuthorityForm(p.auth, d).value, PathForm(p.path).value);
    PartsAreNormal(p, d, q.auth, q.path);
    FormIsText(p, q);
    NormalPartsText(q, d);
    FormOfText(q);
  }

  lemma FormOfText(q: Parts)
    requires GoodParts(q)
    ensures Form(Text(q)) == FormOf(q)
  {
    TextUnbroken(q);
    CutNothing(Text(q));
    PartsOfText(q);
  }

  /** Normalisation is idempotent. */
  lemma NormalTwice(uri: string)
    requires Normal(uri).Some?
    ensures Normal(Normal(uri).value) == Normal(uri)
  {
    FormTwice(uri);
  }
}
