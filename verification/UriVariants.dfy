/** Spellings RFC 3986 calls equivalent have one normal form: case of scheme
    and host, default or empty port, encoded unreserved characters, dot
    segments, query and fragment. */
module UriVariants {
  import opened Basics
  import opened Numerals
  import opened Uri
  import opened UriLaws

  // ── Query and fragment ─────────────────────────────────────────────────

  /** Whatever follows the first `?` or `#` does not matter. */
  lemma TailIgnored(u: string, c: char, tail: string)
    requires Unbroken(u) && (c == '?' || c == '#')
    ensures Form(u + [c] + tail) == Form(u)
  {
    var v := u + [c] + tail;
    CutNothing(u);
    FindIs(v, c, |u|);
    var other := if c == '?' then '#' else '?';
    var k := Find(v, other);
    assert v[..k][..] == v[..k] && forall i :: 0 <= i < |u| ==> v[i] == u[i];
    assert Cut(v) == v[..|u|] == u;
  }

  // ── Case of scheme and host ────────────────────────────────────────────

  predicate SameCase(a: string, b: string) {
    |a| == |b| && forall i :: 0 <= i < |a| ==> Lower(a[i]) == Lower(b[i])
  }

  lemma LowerSame(a: string, b: string)
    requires SameCase(a, b)
    ensures LowerAll(a) == LowerAll(b)
  {
    forall i | 0 <= i < |a| ensures LowerAll(a)[i] == LowerAll(b)[i] {
      LowerAt(a, i);
      LowerAt(b, i);
    }
  }

  lemma HexSame(c: char, d: char)
    requires Lower(c) == Lower(d)
    ensures HexValue(c) == HexValue(d) && Allowed(c, InHost) == Allowed(d, InHost)
    ensures !IsAlpha(c) ==> c == d
  {
  }

  lemma {:induction false} PctSame(a: string, b: string)
    requires SameCase(a, b)
    ensures PctNormal(a, InHost, true) == PctNormal(b, InHost, true)
  {
    if a != "" {
      HexSame(a[0], b[0]);
      if |a| >= 3 {
        HexSame(a[1], b[1]);
        HexSame(a[2], b[2]);
      }
      assert PctUnit(a, InHost, true) == PctUnit(b, InHost, true);
      if PctUnit(a, InHost, true).Some? {
        var n := PctUnit(a, InHost, true).value.1;
        PctSame(a[n..], b[n..]);
      }
    }
  }

  lemma FindSame(a: string, b: string, c: char)
    requires SameCase(a, b) && !IsAlpha(c)
    ensures Find(a, c) == Find(b, c)
  {
    var i := Find(a, c);
    assert forall j :: 0 <= j < i ==> a[..i][j] == a[j];
    assert forall j :: 0 <= j < |a| && (a[j] == c || b[j] == c) ==> a[j] == b[j];
    FindIs(b, c, i);
  }

  lemma HostSame(a: string, b: string)
    requires SameCase(a, b)
    ensures HostForm(a) == HostForm(b)
  {
    LowerSame(a, b);
    PctSame(a, b);
    if a != "" {
      HexSame(a[0], b[0]);
      HexSame(a[|a| - 1], b[|b| - 1]);
      if |a| > 1 { LiteralSame(a[1..|a| - 1], b[1..|b| - 1]); }
    }
  }

  lemma LiteralSame(a: string, b: string)
    requires SameCase(a, b)
    ensures IsLiteral(a) == IsLiteral(b)
  {
    forall i | 0 <= i < |a| ensures HexValue(a[i]) == HexValue(b[i]) && (a[i] in ":." <==> b[i] in ":.") {
      HexSame(a[i], b[i]);
      HexSame(b[i], a[i]);
    }
  }

  lemma PortSame(a: string, b: string, d: nat)
    requires SameCase(a, b)
    ensures PortForm(a, d) == PortForm(b, d)
  {
    if a != "" {
      HexSame(a[0], b[0]);
      HexSame(b[0], a[0]);
      assert AllDigits(a[1..]) || AllDigits(b[1..]) ==> a[1..] == b[1..];
    }
  }

  lemma HostEndSame(a: string, b: string)
    requires SameCase(a, b)
    ensures HostEnd(a) == HostEnd(b)
  {
    FindSame(a, b, ':');
    FindSame(a, b, ']');
    if a != "" { HexSame(a[0], b[0]); HexSame(b[0], a[0]); }
  }

  lemma AuthoritySame(a: string, b: string, d: nat)
    requires SameCase(a, b)
    ensures AuthorityForm(a, d) == AuthorityForm(b, d)
  {
    hide Find, HostForm, PortForm;
    FindSame(a, b, '@');
    FindNone(a, '@');
    FindNone(b, '@');
    HostEndSame(a, b);
    hide HostEnd;
    var end := HostEnd(a);
    HostSame(a[..end], b[..end]);
    PortSame(a[end..], b[end..], d);
  }

  /** Scheme and authority may be written in any case. */
  lemma CaseIgnored(p: Parts, q: Parts)
    requires GoodParts(p) && GoodParts(q) && p.path == q.path
    requires SameCase(p.scheme, q.scheme) && SameCase(p.auth, q.auth)
    ensures Form(Text(p)) == Form(Text(q))
  {
    hide Form, FormOf, Text, LowerAll, AuthorityForm;
    FormOfText(p);
    FormOfText(q);
    LowerSame(p.scheme, q.scheme);
    AuthoritySame(p.auth, q.auth, DefaultPort(p.scheme).value);
    FormAlike(p, q);
  }

  /** What the normal form is made of. */
  lemma FormAlike(p: Parts, q: Parts)
    requires GoodParts(p) && GoodParts(q) && LowerAll(p.scheme) == LowerAll(q.scheme)
    requires AuthorityForm(p.auth, DefaultPort(p.scheme).value) == AuthorityForm(q.auth, DefaultPort(p.scheme).value)
    requires PathForm(p.path) == PathForm(q.path)
    ensures FormOf(p) == FormOf(q)
  {
    hide AuthorityForm, PathForm, LowerAll;
  }

  // ── Ports ──────────────────────────────────────────────────────────────

  /** A host nothing runs on from: a bracketed literal, or no colon in it. */
  predicate WholeHost(h: string) {
    h != "" && if h[0] == '[' then Find(h, ']') == |h| - 1 else ':' !in h
  }

  lemma HostPort(h: string, port: string, d: nat)
    requires WholeHost(h) && (port == "" || port[0] == ':')
    ensures AuthorityForm(h + port, d) == if '@' in h + port then None else Appended(HostForm(h), PortForm(port, d))
  {
    var a := h + port;
    assert a[0] == h[0];
    if h[0] == '[' {
      assert forall j :: 0 <= j < |h| - 1 ==> h[..|h| - 1][j] == h[j];
      FindIs(a, ']', |h| - 1);
    } else {
      FindIs(a, ':', |h|);
    }
    assert a[..|h|] == h && a[|h|..] == port;
  }

  lemma DefaultPortForm(h: string, digits: string, d: nat)
    requires WholeHost(h) && AllDigits(digits) && (digits == "" || DigitsValue(digits) == d) && d <= 65_535
    ensures AuthorityForm(h + ":" + digits, d) == AuthorityForm(h, d)
  {
    HostPort(h, ":" + digits, d);
    HostPort(h, "", d);
    assert h + (":" + digits) == h + ":" + digits && h + "" == h && (":" + digits)[1..] == digits;
    assert '@' in h <==> '@' in h + ":" + digits;
  }

  /** No port, an empty port and the scheme's default port, with or without
      leading zeros, are one. */
  lemma DefaultPortIgnored(p: Parts, h: string, digits: string)
    requires GoodParts(p) && p.auth == h + ":" + digits && WholeHost(h)
    requires AllDigits(digits) && (digits == "" || DigitsValue(digits) == DefaultPort(p.scheme).value)
    ensures Form(Text(p)) == Form(Text(p.(auth := h)))
  {
    DefaultPortForm(h, digits, DefaultPort(p.scheme).value);
    assert forall i :: 0 <= i < |h| ==> p.auth[i] == h[i];
    FormOfText(p);
    FormOfText(p.(auth := h));
  }

  // ── Encoded characters ─────────────────────────────────────────────────

  /** An octet written as two hex digits, in either case. */
  predicate Encodes(enc: string, c: char) {
    && |enc| == 3 && enc[0] == '%' && HexValue(enc[1]).Some? && HexValue(enc[2]).Some?
    && c == (16 * HexValue(enc[1]).value + HexValue(enc[2]).value) as char
  }

  /** An encoded unreserved character reads as the character. */
  lemma EncodedUnit(enc: string, c: char, b: string, part: Part, lower: bool)
    requires Encodes(enc, c) && IsUnreserved(c)
    ensures PctNormal(enc + b, part, lower) == PctNormal([c] + b, part, lower)
  {
    assert (enc + b)[0] == '%' && (enc + b)[1] == enc[1] && (enc + b)[2] == enc[2] && (enc + b)[3..] == b;
    assert ([c] + b)[1..] == b && c != '%';
  }

  lemma SameOctet(enc: string, cne: string, c: char)
    requires Encodes(enc, c) && Encodes(cne, c)
    ensures HexValue(enc[1]) == HexValue(cne[1]) && HexValue(enc[2]) == HexValue(cne[2])
  {
    var hi, lo := HexValue(enc[1]).value, HexValue(enc[2]).value;
    var hi', lo' := HexValue(cne[1]).value, HexValue(cne[2]).value;
    assert 16 * hi + lo == c as int == 16 * hi' + lo';
  }

  /** An encoding reads the same in either case of its digits. */
  lemma EitherCase(enc: string, cne: string, c: char, b: string, part: Part, lower: bool)
    requires Encodes(enc, c) && Encodes(cne, c)
    ensures PctNormal(enc + b, part, lower) == PctNormal(cne + b, part, lower)
  {
    SameOctet(enc, cne, c);
    assert (enc + b)[..3] == enc && (cne + b)[..3] == cne;
    assert (enc + b)[3..] == b && (cne + b)[3..] == b;
    assert PctUnit(enc + b, part, lower) == PctUnit(cne + b, part, lower);
  }

  /** So it does anywhere in a text, well-formed or not. */
  lemma EitherCaseAnywhere(a: string, enc: string, cne: string, c: char, b: string, part: Part, lower: bool)
    requires Encodes(enc, c) && Encodes(cne, c)
    ensures PctNormal(a + enc + b, part, lower) == PctNormal(a + cne + b, part, lower)
  {
    hide PctNormal;
    assert a + enc + b == a + (enc + b) && a + cne + b == a + (cne + b);
    if PctNormal(a, part, lower).Some? {
      EitherCase(enc, cne, c, b, part, lower);
      PctAppend(a, enc + b, part, lower);
      PctAppend(a, cne + b, part, lower);
    } else {
      NoneBefore(a, enc, b, part, lower);
      NoneBefore(a, cne, b, part, lower);
    }
  }

  /** What is not well-formed before a `%` stays so. */
  lemma NoneBefore(a: string, enc: string, b: string, part: Part, lower: bool)
    requires enc != "" && enc[0] == '%' && PctNormal(a, part, lower).None?
    ensures PctNormal(a + enc + b, part, lower).None?
  {
    hide PctNormal;
    assert a + enc + b == a + ['%'] + (enc[1..] + b);
    if PctNormal(a + enc + b, part, lower).Some? { PctBefore(a, '%', enc[1..] + b, part, lower); }
  }

  lemma EncodedAnywhere(a: string, enc: string, c: char, b: string, part: Part, lower: bool)
    requires PctNormal(a, part, lower).Some? && Encodes(enc, c) && IsUnreserved(c)
    ensures PctNormal(a + enc + b, part, lower) == PctNormal(a + [c] + b, part, lower)
  {
    EncodedUnit(enc, c, b, part, lower);
    PctAppend(a, enc + b, part, lower);
    PctAppend(a, [c] + b, part, lower);
    assert a + enc + b == a + (enc + b) && a + [c] + b == a + ([c] + b);
  }

  /** The same but for their paths, which have one form. */
  lemma SamePath(p: Parts, q: Parts)
    requires GoodParts(p) && GoodParts(q) && p.scheme == q.scheme && p.auth == q.auth
    requires PathForm(p.path) == PathForm(q.path)
    ensures Form(Text(p)) == Form(Text(q))
  {
    hide Form, FormOf, Text, AuthorityForm, PathForm;
    FormOfText(p);
    FormOfText(q);
    FormAlike(p, q);
  }

  /** The same but for their authorities, which have one form. */
  lemma SameAuthority(p: Parts, q: Parts)
    requires GoodParts(p) && GoodParts(q) && p.scheme == q.scheme && p.path == q.path
    requires AuthorityForm(p.auth, DefaultPort(p.scheme).value) == AuthorityForm(q.auth, DefaultPort(p.scheme).value)
    ensures Form(Text(p)) == Form(Text(q))
  {
    hide Form, FormOf, Text, AuthorityForm, PathForm;
    FormOfText(p);
    FormOfText(q);
    FormAlike(p, q);
  }

  lemma UnbrokenIs(s: string)
    ensures Unbroken(s) <==> '?' !in s && '#' !in s
  {
  }

  /** Neither an encoding nor an unreserved character ends a part. */
  predicate Inside(s: string) { forall c :: c in s ==> c !in ":/?#@[" }

  lemma EncodedInside(enc: string, c: char)
    requires Encodes(enc, c)
    ensures Inside(enc)
  {
    forall i | 0 <= i < 3 ensures enc[i] !in ":/?#@[" { if i > 0 { assert HexValue(enc[i]).Some?; } }
  }

  lemma UnreservedInside(c: char)
    requires IsUnreserved(c)
    ensures Inside([c])
  {
  }

  /** Parts stay good when one such piece of the path is put for another. */
  lemma PathStaysGood(p: Parts, a: string, e: string, f: string, b: string)
    requires GoodParts(p) && p.path == a + e + b && a != "" && a[0] == '/' && Inside(f)
    ensures GoodParts(p.(path := a + f + b))
  {
    hide DefaultPort;
    UnbrokenIs(p.path);
    UnbrokenIs(a + f + b);
    forall c | c in a + f + b ensures c in p.path || c in f { assert c in a || c in f || c in b; }
    assert (a + f + b)[0] == '/';
  }

  /** In a path: after text that is well-formed so far. */
  lemma EncodedPathIgnored(p: Parts, a: string, enc: string, c: char, b: string)
    requires GoodParts(p) && p.path == a + enc + b && a != "" && a[0] == '/'
    requires PctNormal(a, InPath, false).Some? && Encodes(enc, c) && IsUnreserved(c)
    ensures Form(Text(p)) == Form(Text(p.(path := a + [c] + b)))
  {
    UnreservedInside(c);
    PathStaysGood(p, a, enc, [c], b);
    EncodedAnywhere(a, enc, c, b, InPath, false);
    hide PctNormal, Form, Text, RemoveDots;
    assert p.path[0] == (a + [c] + b)[0] == '/';
    SamePath(p, p.(path := a + [c] + b));
  }

  /** The digits of an encoding in a path may be of either case. */
  lemma EncodedPathCase(p: Parts, a: string, enc: string, cne: string, c: char, b: string)
    requires GoodParts(p) && p.path == a + enc + b && a != "" && a[0] == '/' && Encodes(enc, c) && Encodes(cne, c)
    ensures Form(Text(p)) == Form(Text(p.(path := a + cne + b)))
  {
    EncodedInside(cne, c);
    PathStaysGood(p, a, enc, cne, b);
    EitherCaseAnywhere(a, enc, cne, c, b, InPath, false);
    hide PctNormal, Form, Text, RemoveDots;
    assert p.path[0] == (a + cne + b)[0] == '/';
    SamePath(p, p.(path := a + cne + b));
  }

  /** A registered name with a piece that ends no part, then a port. */
  predicate NamePiece(a: string, e: string, b: string, port: string) {
    e != "" && Inside(e) && ':' !in a && ':' !in b && (a == "" || a[0] != '[') && (port == "" || port[0] == ':')
  }

  lemma NameIsWhole(a: string, e: string, b: string, port: string)
    requires NamePiece(a, e, b, port)
    ensures WholeHost(a + e + b) && (a + e + b)[0] != '['
    ensures '@' in a + e + b + port <==> '@' in a + b + port
  {
    var h := a + e + b;
    assert h[0] == if a == "" then e[0] else a[0];
    assert e[0] in e;
    assert ':' !in h;
  }

  /** One piece of a name for another that normalises alike. */
  lemma NamePieces(p: Parts, a: string, e: string, f: string, b: string, port: string)
    requires GoodParts(p) && p.auth == a + e + b + port && NamePiece(a, e, b, port) && NamePiece(a, f, b, port)
    requires PctNormal(a + e + b, InHost, true) == PctNormal(a + f + b, InHost, true)
    ensures Form(Text(p)) == Form(Text(p.(auth := a + f + b + port)))
  {
    var q := p.(auth := a + f + b + port);
    var d := DefaultPort(p.scheme).value;
    NameStaysGood(p, a, e, f, b, port);
    NameIsWhole(a, e, b, port);
    NameIsWhole(a, f, b, port);
    HostPort(a + e + b, port, d);
    HostPort(a + f + b, port, d);
    hide PctNormal, Form, Text, AuthorityForm, PathForm, WholeHost;
    assert HostForm(a + e + b) == HostForm(a + f + b);
    SameAuthority(p, q);
  }

  lemma NameStaysGood(p: Parts, a: string, e: string, f: string, b: string, port: string)
    requires GoodParts(p) && p.auth == a + e + b + port && Inside(f)
    ensures GoodParts(p.(auth := a + f + b + port))
  {
    hide DefaultPort;
    var auth := a + f + b + port;
    UnbrokenIs(p.auth);
    UnbrokenIs(auth);
    forall c | c in auth ensures c in p.auth || c in f { assert c in a || c in f || c in b || c in port; }
  }

  /** In a host, whose letters are then in lower case anyway. */
  lemma EncodedHostIgnored(p: Parts, a: string, enc: string, c: char, b: string, port: string)
    requires GoodParts(p) && p.auth == a + enc + b + port && Encodes(enc, c) && IsUnreserved(c)
    requires NamePiece(a, enc, b, port) && PctNormal(a, InHost, true).Some?
    ensures Form(Text(p)) == Form(Text(p.(auth := a + [c] + b + port)))
  {
    UnreservedInside(c);
    EncodedAnywhere(a, enc, c, b, InHost, true);
    NamePieces(p, a, enc, [c], b, port);
  }

  /** The digits of an encoding in a host may be of either case. */
  lemma EncodedHostCase(p: Parts, a: string, enc: string, cne: string, c: char, b: string, port: string)
    requires GoodParts(p) && p.auth == a + enc + b + port && Encodes(enc, c) && Encodes(cne, c)
    requires NamePiece(a, enc, b, port)
    ensures Form(Text(p)) == Form(Text(p.(auth := a + cne + b + port)))
  {
    EncodedInside(cne, c);
    EitherCaseAnywhere(a, enc, cne, c, b, InHost, true);
    NamePieces(p, a, enc, cne, b, port);
  }

  // ── Dot segments ───────────────────────────────────────────────────────

  /** Inner segments act on the stack one by one. */
  function Steps(stack: seq<string>, segs: seq<string>): seq<string>
    decreases |segs|
  {
    if segs == [] then stack else Steps(Step(stack, segs[0]), segs[1..])
  }

  lemma {:induction false} WalkSplits(stack: seq<string>, a: seq<string>, b: seq<string>)
    requires b != []
    ensures Walk(stack, a + b) == Walk(Steps(stack, a), b)
    decreases |a|
  {
    if a == [] {
      assert a + b == b;
    } else {
      assert (a + b)[1..] == a[1..] + b && |a + b| > 1;
      WalkSplits(Step(stack, a[0]), a[1..], b);
    }
  }

  /** An inner `.` is dropped, and so is a segment followed by an inner `..`. */
  lemma DotsDrop(a: seq<string>, seg: string, b: seq<string>)
    requires b != []
    ensures Walk([], a + ["."] + b) == Walk([], a + b)
    ensures !IsDot(seg) ==> Walk([], a + [seg, ".."] + b) == Walk([], a + b)
  {
    var s := Steps([], a);
    WalkSplits([], a, b);
    assert a + ["."] + b == a + (["."] + b);
    WalkSplits([], a, ["."] + b);
    WalkSplits(s, ["."], b);
    assert Steps(s, ["."]) == Steps(s, []) == s;
    if !IsDot(seg) {
      assert a + [seg, ".."] + b == a + ([seg, ".."] + b);
      WalkSplits([], a, [seg, ".."] + b);
      WalkSplits(s, [seg, ".."], b);
      assert [seg, ".."][1..] == [".."] && [".."][1..] == [];
      assert Steps(s, [seg, ".."]) == Steps(s + [seg], [".."]) == Pop(s + [seg]) == s;
    }
  }

  /** The segments of a path, each in its normal form. */
  function PctAll(segs: seq<string>): Option<seq<string>> {
    if segs == [] then Some([])
    else
      match (PctNormal(segs[0], InPath, false), PctAll(segs[1..]))
      case (Some(x), Some(xs)) => Some([x] + xs)
      case _ => None
  }

  lemma {:induction false} PctNoSlash(s: string)
    requires '/' !in s && PctNormal(s, InPath, false).Some?
    ensures '/' !in PctNormal(s, InPath, false).value
  {
    if s != "" {
      var (text, n) := PctUnit(s, InPath, false).value;
      PctNoSlash(s[n..]);
      if s[0] == '%' {
        HexOfDigit(HexValue(s[1]).value);
        HexOfDigit(HexValue(s[2]).value);
      }
    }
  }

  lemma {:induction false} PctAllSplits(a: seq<string>, b: seq<string>)
    ensures PctAll(a + b) == match (PctAll(a), PctAll(b)) case (Some(x), Some(y)) => Some(x + y) case _ => None
    ensures PctAll(a).Some? && NoSlash(a) ==> NoSlash(PctAll(a).value) && |PctAll(a).value| == |a|
  {
    if a == [] {
      assert a + b == b;
      assert PctAll(b).Some? ==> [] + PctAll(b).value == PctAll(b).value;
    } else {
      assert (a + b)[1..] == a[1..] + b;
      PctAllSplits(a[1..], b);
      if PctAll(a).Some? && PctAll(b).Some? {
        var x := PctNormal(a[0], InPath, false).value;
        assert [x] + (PctAll(a[1..]).value + PctAll(b).value) == [x] + PctAll(a[1..]).value + PctAll(b).value;
      }
      if PctAll(a).Some? && NoSlash(a) { PctNoSlash(a[0]); }
    }
  }

  /** A path is normal when its segments are. */
  lemma {:induction false} PctJoin(segs: seq<string>)
    ensures PctNormal(Join(segs), InPath, false) == match PctAll(segs) case Some(x) => Some(Join(x)) case None => None
  {
    if segs != [] {
      PctJoin(segs[1..]);
      PctSegment(segs[0], Join(segs[1..]));
      if PctAll(segs).Some? { assert PctAll(segs).value[1..] == PctAll(segs[1..]).value; }
    }
  }

  /** One segment before a slash or the end. */
  lemma PctSegment(seg: string, rest: string)
    requires rest == "" || rest[0] == '/'
    ensures PctNormal("/" + seg + rest, InPath, false)
         == match (PctNormal(seg, InPath, false), PctNormal(rest, InPath, false))
            case (Some(x), Some(y)) => Some("/" + x + y)
            case _ => None
  {
    SlashFixed();
    hide PctNormal;
    PctAppend("/", seg + rest, InPath, false);
    assert "/" + seg + rest == "/" + (seg + rest);
    if PctNormal(seg, InPath, false).Some? {
      PctAppend(seg, rest, InPath, false);
      if PctNormal(rest, InPath, false).Some? {
        var x, y := PctNormal(seg, InPath, false).value, PctNormal(rest, InPath, false).value;
        assert "/" + (x + y) == "/" + x + y;
      }
    } else if PctNormal(seg + rest, InPath, false).Some? {
      SegmentStands(seg, rest);
    }
  }

  lemma SegmentStands(seg: string, rest: string)
    requires (rest == "" || rest[0] == '/') && PctNormal(seg + rest, InPath, false).Some?
    ensures PctNormal(seg, InPath, false).Some?
  {
    if rest == "" {
      assert seg + rest == seg;
    } else {
      assert seg + rest == seg + ['/'] + rest[1..];
      PctBefore(seg, '/', rest[1..], InPath, false);
    }
  }

  /** A path by its segments. */
  lemma PathFormIs(segs: seq<string>)
    requires segs != [] && NoSlash(segs)
    ensures Join(segs) != "" && Join(segs)[0] == '/'
    ensures PathForm(Join(segs)) == match PctAll(segs)
                                    case Some(x) => (if x == [] then None else Some(Join(Walk([], x))))
                                    case None => None
  {
    PctAllSplits(segs, []);
    PctJoin(segs);
    JoinSplit(segs);
    if PctAll(segs).Some? {
      assert PctAll(segs).value + [] == PctAll(segs).value;
      JoinSplit(PctAll(segs).value);
    }
  }

  lemma NoSlashSplits(a: seq<string>, b: seq<string>)
    ensures NoSlash(a + b) <==> NoSlash(a) && NoSlash(b)
  {
    assert forall i :: 0 <= i < |a| ==> (a + b)[i] == a[i];
    assert forall i :: 0 <= i < |b| ==> (a + b)[|a| + i] == b[i];
  }

  /** A segment that reads as `.`, however encoded, may be left out. */
  lemma DotIgnored(a: seq<string>, dot: string, b: seq<string>)
    requires b != [] && NoSlash(a) && NoSlash(b) && '/' !in dot && PctNormal(dot, InPath, false) == Some(".")
    ensures SegmentsForm(a + [dot] + b) == SegmentsForm(a + b)
  {
    NoSlashSplits(a + [dot], b);
    NoSlashSplits(a, [dot]);
    NoSlashSplits(a, b);
    PathFormIs(a + [dot] + b);
    PathFormIs(a + b);
    PctAllSplits(a + [dot], b);
    PctAllSplits(a, [dot]);
    PctAllSplits(a, b);
    PctAllSplits(b, []);
    OneSegment(dot);
    if PctAll(a).Some? && PctAll(b).Some? {
      assert b + [] == b;
      DotsDrop(PctAll(a).value, "", PctAll(b).value);
    }
  }

  /** So may any other segment together with a `..` that follows it. */
  lemma DotDotIgnored(a: seq<string>, seg: string, dots: string, b: seq<string>)
    requires b != [] && NoSlash(a) && NoSlash(b) && '/' !in seg && '/' !in dots
    requires PctNormal(dots, InPath, false) == Some("..")
    requires PctNormal(seg, InPath, false).Some? && !IsDot(PctNormal(seg, InPath, false).value)
    ensures SegmentsForm(a + [seg, dots] + b) == SegmentsForm(a + b)
  {
    NoSlashSplits(a + [seg, dots], b);
    NoSlashSplits(a, [seg, dots]);
    NoSlashSplits(a, b);
    PathFormIs(a + [seg, dots] + b);
    PathFormIs(a + b);
    PctAllSplits(a + [seg, dots], b);
    PctAllSplits(a, [seg, dots]);
    PctAllSplits(a, b);
    PctAllSplits(b, []);
    TwoSegments(seg, dots);
    if PctAll(a).Some? && PctAll(b).Some? {
      assert b + [] == b;
      DotsDrop(PctAll(a).value, PctNormal(seg, InPath, false).value, PctAll(b).value);
    }
  }

  lemma OneSegment(seg: string)
    requires PctNormal(seg, InPath, false).Some?
    ensures PctAll([seg]) == Some([PctNormal(seg, InPath, false).value])
  {
    var x := PctNormal(seg, InPath, false).value;
    assert [seg][1..] == [] && PctAll([]) == Some([]) && [x] + [] == [x];
  }

  lemma TwoSegments(a: string, b: string)
    requires PctNormal(a, InPath, false).Some? && PctNormal(b, InPath, false).Some?
    ensures PctAll([a, b]) == Some([PctNormal(a, InPath, false).value, PctNormal(b, InPath, false).value])
  {
    var x, y := PctNormal(a, InPath, false).value, PctNormal(b, InPath, false).value;
    assert [a, b][1..] == [b] && [x] + [y] == [x, y];
    OneSegment(b);
  }

  /** The normal form of the path with these segments. */
  function SegmentsForm(segs: seq<string>): Option<string> {
    if segs == [] then PathForm("")
    else
      assert Join(segs)[0] == '/';
      PathForm(Join(segs))
  }

  lemma FinalWalks(a: seq<string>, seg: string)
    requires !IsDot(seg)
    ensures Walk([], a + ["."]) == Walk([], a + [""]) == Walk([], a + [seg, ".."])
  {
    var s := Steps([], a);
    WalkSplits([], a, ["."]);
    WalkSplits([], a, [""]);
    assert a + [seg, ".."] == (a + [seg]) + [".."];
    WalkSplits([], a + [seg], [".."]);
    assert Steps([], a + [seg]) == s + [seg] by { StepsSplit([], a, [seg]); }
    assert Pop(s + [seg]) == s;
  }

  /** A `..` with nothing before it drops nothing. */
  lemma RootWalks(b: seq<string>)
    ensures Walk([], [".."] + b) == Walk([], if b == [] then [""] else b)
  {
    if b == [] {
      assert [".."] + b == [".."];
    } else {
      assert ([".."] + b)[1..] == b;
    }
  }

  lemma {:induction false} StepsSplit(stack: seq<string>, a: seq<string>, b: seq<string>)
    ensures Steps(stack, a + b) == Steps(Steps(stack, a), b)
    decreases |a|
  {
    if a == [] {
      assert a + b == b;
    } else {
      assert (a + b)[1..] == a[1..] + b;
      StepsSplit(Step(stack, a[0]), a[1..], b);
    }
  }

  /** Dot segments in a URI do not matter, however they are encoded. */
  lemma DotSegmentsIgnored(p: Parts, q: Parts, a: seq<string>, seg: string, dots: string, b: seq<string>)
    requires GoodParts(p) && GoodParts(q) && q.path == Join(a + b)
    requires p.scheme == q.scheme && p.auth == q.auth
    requires b != [] && NoSlash(a) && NoSlash(b) && '/' !in seg && '/' !in dots && PctNormal(seg, InPath, false).Some?
    requires || (p.path == Join(a + [dots] + b) && PctNormal(dots, InPath, false) == Some("."))
             || (p.path == Join(a + [seg, dots] + b) && PctNormal(dots, InPath, false) == Some("..")
                 && !IsDot(PctNormal(seg, InPath, false).value))
    ensures Form(Text(p)) == Form(Text(q))
  {
    if p.path == Join(a + [dots] + b) && PctNormal(dots, InPath, false) == Some(".") {
      DotIgnored(a, dots, b);
    } else {
      DotDotIgnored(a, seg, dots, b);
    }
    SamePath(p, q);
  }

  /** Which segments are left of a path, or that its encoding is broken. */
  function Kept(segs: seq<string>): Option<seq<string>> {
    match PctAll(segs)
    case Some(x) => Some(if x == [] then [] else Walk([], x))
    case None => None
  }

  /** Paths of which the same segments are left have one form. */
  lemma KeptAlike(p: Parts, q: Parts, s: seq<string>, t: seq<string>)
    requires GoodParts(p) && GoodParts(q) && p.scheme == q.scheme && p.auth == q.auth
    requires s != [] && t != [] && NoSlash(s) && NoSlash(t) && p.path == Join(s) && q.path == Join(t)
    requires Kept(s) == Kept(t)
    ensures Form(Text(p)) == Form(Text(q))
  {
    hide Form, Text, PathForm, Join, Walk;
    PathFormIs(s);
    PathFormIs(t);
    PctAllSplits(s, []);
    PctAllSplits(t, []);
    SamePath(p, q);
  }

  /** The segments `a` and then those of `b`, whose form is known. */
  lemma PctAllThen(a: seq<string>, b: seq<string>, x: seq<string>)
    requires PctAll(b) == Some(x)
    ensures PctAll(a + b) == match PctAll(a) case Some(y) => Some(y + x) case None => None
  {
    PctAllSplits(a, b);
  }

  /** A `.`, or a segment and its `..`, at the end of a path leaves its slash. */
  lemma FinalDotsIgnored(p: Parts, q: Parts, a: seq<string>, seg: string, dots: string)
    requires GoodParts(p) && GoodParts(q) && p.scheme == q.scheme && p.auth == q.auth && q.path == Join(a + [""])
    requires NoSlash(a) && '/' !in seg && '/' !in dots && PctNormal(seg, InPath, false).Some?
    requires || (p.path == Join(a + [dots]) && PctNormal(dots, InPath, false) == Some("."))
             || (p.path == Join(a + [seg, dots]) && PctNormal(dots, InPath, false) == Some("..")
                 && !IsDot(PctNormal(seg, InPath, false).value))
    ensures Form(Text(p)) == Form(Text(q))
  {
    hide Form, Text, Join, Walk;
    assert PctNormal("", InPath, false) == Some("");
    hide PctNormal, GoodParts;
    OneSegment("");
    PctAllThen(a, [""], [""]);
    var last := if p.path == Join(a + [dots]) && PctNormal(dots, InPath, false) == Some(".") then [dots] else [seg, dots];
    var seg' := PctNormal(seg, InPath, false).value;
    if |last| == 1 {
      OneSegment(dots);
      PctAllThen(a, last, ["."]);
      if PctAll(a).Some? { FinalWalks(PctAll(a).value, ""); }
    } else {
      TwoSegments(seg, dots);
      PctAllThen(a, last, [seg', ".."]);
      if PctAll(a).Some? { FinalWalks(PctAll(a).value, seg'); }
    }
    NoSlashSplits(a, last);
    NoSlashSplits(a, [""]);
    KeptAlike(p, q, a + last, a + [""]);
  }

  /** A `..` at the root leads nowhere: what follows it is as if it were not
      there, and when nothing does the path is the root. */
  lemma RootDotsIgnored(p: Parts, q: Parts, dots: string, b: seq<string>)
    requires GoodParts(p) && GoodParts(q) && p.scheme == q.scheme && p.auth == q.auth
    requires NoSlash(b) && '/' !in dots && PctNormal(dots, InPath, false) == Some("..")
    requires p.path == Join([dots] + b) && q.path == Join(if b == [] then [""] else b)
    ensures Form(Text(p)) == Form(Text(q))
  {
    hide Form, Text, Join, Walk;
    assert PctNormal("", InPath, false) == Some("");
    hide PctNormal, GoodParts;
    OneSegment(dots);
    OneSegment("");
    PctAllSplits([dots], b);
    PctAllSplits(b, []);
    if PctAll(b).Some? {
      assert PctAll(b).value + [] == PctAll(b).value;
      RootWalks(PctAll(b).value);
    }
    NoSlashSplits([dots], b);
    KeptAlike(p, q, [dots] + b, if b == [] then [""] else b);
  }

  /** No path is the root. */
  lemma EmptyPathIgnored(p: Parts)
    requires GoodParts(p) && p.path == ""
    ensures Form(Text(p)) == Form(Text(p.(path := "/")))
  {
    SlashFixed();
    assert Split("") == [""] && Join([""]) == "/" && "/"[1..] == "";
    SamePath(p, p.(path := "/"));
  }
}
