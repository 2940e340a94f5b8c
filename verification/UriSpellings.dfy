/** Any number of respellings, of any kind and in either direction, leave the
    normal form of a URI as it is. */
module UriSpellings {
  import opened Basics
  import opened Numerals
  import opened Uri
  import opened UriLaws
  import opened UriVariants

  /** One way to spell a URI otherwise, with what it changes. */
  datatype Change =
    | Tail(c: char, tail: string)
    | LetterCase(p: Parts, q: Parts)
    | DefaultPort(p: Parts, h: string, digits: string)
    | NoPath(p: Parts)
    | EncodedPath(p: Parts, a: string, enc: string, c: char, b: string)
    | EncodedHost(p: Parts, a: string, enc: string, c: char, b: string, port: string)
    | PathDigits(p: Parts, a: string, enc: string, cne: string, c: char, b: string)
    | HostDigits(p: Parts, a: string, enc: string, cne: string, c: char, b: string, port: string)
    | InnerDots(p: Parts, q: Parts, before: seq<string>, seg: string, dots: string, after: seq<string>)
    | FinalDots(p: Parts, q: Parts, before: seq<string>, seg: string, dots: string)
    | RootDots(p: Parts, q: Parts, dots: string, after: seq<string>)

  /** A dot segment, or a segment and the `..` that takes it back. */
  ghost predicate Dotted(path: string, a: seq<string>, seg: string, dots: string, b: seq<string>) {
    && NoSlash(a) && NoSlash(b) && '/' !in seg && '/' !in dots && PctNormal(seg, InPath, false).Some?
    && (|| (path == Join(a + [dots] + b) && PctNormal(dots, InPath, false) == Some("."))
        || (path == Join(a + [seg, dots] + b) && PctNormal(dots, InPath, false) == Some("..")
            && !IsDot(PctNormal(seg, InPath, false).value)))
  }

  /** The change makes `v` of `u`. */
  ghost predicate Makes(ch: Change, u: string, v: string) {
    match ch
    case Tail(c, tail) => Unbroken(v) && (c == '?' || c == '#') && u == v + [c] + tail
    case LetterCase(p, q) =>
      && u == Text(p) && v == Text(q) && GoodParts(p) && GoodParts(q) && p.path == q.path
      && SameCase(p.scheme, q.scheme) && SameCase(p.auth, q.auth)
    case DefaultPort(p, h, digits) =>
      && u == Text(p) && v == Text(p.(auth := h)) && GoodParts(p) && p.auth == h + ":" + digits && WholeHost(h)
      && AllDigits(digits) && (digits == "" || DigitsValue(digits) == Uri.DefaultPort(p.scheme).value)
    case NoPath(p) => u == Text(p) && v == Text(p.(path := "/")) && GoodParts(p) && p.path == ""
    case EncodedPath(p, a, enc, c, b) =>
      && u == Text(p) && v == Text(p.(path := a + [c] + b)) && GoodParts(p)
      && p.path == a + enc + b && a != "" && a[0] == '/'
      && PctNormal(a, InPath, false).Some? && Encodes(enc, c) && IsUnreserved(c)
    case EncodedHost(p, a, enc, c, b, port) =>
      && u == Text(p) && v == Text(p.(auth := a + [c] + b + port)) && GoodParts(p)
      && p.auth == a + enc + b + port && NamePiece(a, enc, b, port)
      && PctNormal(a, InHost, true).Some? && Encodes(enc, c) && IsUnreserved(c)
    case PathDigits(p, a, enc, cne, c, b) =>
      && u == Text(p) && v == Text(p.(path := a + cne + b)) && GoodParts(p)
      && p.path == a + enc + b && a != "" && a[0] == '/' && Encodes(enc, c) && Encodes(cne, c)
    case HostDigits(p, a, enc, cne, c, b, port) =>
      && u == Text(p) && v == Text(p.(auth := a + cne + b + port)) && GoodParts(p)
      && p.auth == a + enc + b + port && NamePiece(a, enc, b, port) && Encodes(enc, c) && Encodes(cne, c)
    case InnerDots(p, q, a, seg, dots, b) =>
      && u == Text(p) && v == Text(q) && GoodParts(p) && GoodParts(q) && p.scheme == q.scheme && p.auth == q.auth
      && b != [] && Dotted(p.path, a, seg, dots, b) && q.path == Join(a + b)
    case FinalDots(p, q, a, seg, dots) =>
      && u == Text(p) && v == Text(q) && GoodParts(p) && GoodParts(q) && p.scheme == q.scheme && p.auth == q.auth
      && Dotted(p.path, a, seg, dots, []) && q.path == Join(a + [""])
    case RootDots(p, q, dots, b) =>
      && u == Text(p) && v == Text(q) && GoodParts(p) && GoodParts(q) && p.scheme == q.scheme && p.auth == q.auth
      && NoSlash(b) && '/' !in dots && PctNormal(dots, InPath, false) == Some("..")
      && p.path == Join([dots] + b) && q.path == Join(if b == [] then [""] else b)
  }

  lemma ChangeIgnored(ch: Change, u: string, v: string)
    requires Makes(ch, u, v)
    ensures Form(u) == Form(v)
  {
    hide Form, Text, GoodParts, Join, PctNormal, NamePiece;
    match ch
    case Tail(c, tail) => TailIgnored(v, c, tail);
    case LetterCase(p, q) => CaseIgnored(p, q);
    case DefaultPort(p, h, digits) => DefaultPortIgnored(p, h, digits);
    case NoPath(p) => EmptyPathIgnored(p);
    case EncodedPath(p, a, enc, c, b) => EncodedPathIgnored(p, a, enc, c, b);
    case EncodedHost(p, a, enc, c, b, port) => EncodedHostIgnored(p, a, enc, c, b, port);
    case PathDigits(p, a, enc, cne, c, b) => EncodedPathCase(p, a, enc, cne, c, b);
    case HostDigits(p, a, enc, cne, c, b, port) => EncodedHostCase(p, a, enc, cne, c, b, port);
    case InnerDots(p, q, a, seg, dots, b) => DotSegmentsIgnored(p, q, a, seg, dots, b);
    case FinalDots(p, q, a, seg, dots) =>
      assert a + [dots] + [] == a + [dots] && a + [seg, dots] + [] == a + [seg, dots];
      FinalDotsIgnored(p, q, a, seg, dots);
    case RootDots(p, q, dots, b) => RootDotsIgnored(p, q, dots, b);
  }

  /** Each spelling is made from its neighbour by the change between them, in
      one direction or the other. */
  ghost predicate Respelt(spellings: seq<string>, changes: seq<Change>) {
    && |spellings| == |changes| + 1
    && forall i :: 0 <= i < |changes| ==> Neighbours(spellings, changes, i)
  }

  ghost predicate Neighbours(spellings: seq<string>, changes: seq<Change>, i: nat)
    requires i < |changes| && i + 1 < |spellings|
  {
    Makes(changes[i], spellings[i], spellings[i + 1]) || Makes(changes[i], spellings[i + 1], spellings[i])
  }

  lemma {:induction false} FormsAlong(spellings: seq<string>, changes: seq<Change>, i: nat)
    requires Respelt(spellings, changes) && i < |spellings|
    ensures Form(spellings[0]) == Form(spellings[i])
  {
    hide Form, Makes;
    if i > 0 {
      FormsAlong(spellings, changes, i - 1);
      assert Neighbours(spellings, changes, i - 1);
      if Makes(changes[i - 1], spellings[i - 1], spellings[i]) {
        ChangeIgnored(changes[i - 1], spellings[i - 1], spellings[i]);
      } else {
        ChangeIgnored(changes[i - 1], spellings[i], spellings[i - 1]);
      }
    }
  }

  /** However a URI is respelt, step by step, it has the same normal form at
      either end, whenever both fit the buffer. */
  lemma RespellingIgnored(spellings: seq<string>, changes: seq<Change>)
    requires Respelt(spellings, changes)
    requires |spellings[0]| <= MAX_URI && |spellings[|changes|]| <= MAX_URI
    ensures Normal(spellings[0]) == Normal(spellings[|changes|])
  {
    hide Form;
    FormsAlong(spellings, changes, |changes|);
  }
}
