/** The target-URI normal form a DPoP proof is compared under: sections 5.2.4,
    6.2.2 and 6.2.3 of RFC 3986, read on whole strings. Bytes are characters
    below 256. */
module Uri {
  import opened Basics
  import opened Numerals

  const MAX_URI := 512

  // ── Characters ─────────────────────────────────────────────────────────

  predicate IsUpper(c: char) { 'A' <= c <= 'Z' }
  predicate IsAlpha(c: char) { 'a' <= c <= 'z' || IsUpper(c) }
  predicate IsUnreserved(c: char) { IsAlpha(c) || IsDigit(c) || c in "-._~" }
  predicate IsSubDelim(c: char) { c in "!$&'()*+,;=" }

  /** The part of a URI a character stands in. */
  datatype Part = InPath | InHost

  predicate Allowed(c: char, part: Part) {
    IsUnreserved(c) || IsSubDelim(c) || (part == InPath && c in ":@/")
  }

  function Lower(c: char): char { if IsUpper(c) then c + ('a' - 'A') else c }
  function Fold(c: char, lower: bool): char { if lower then Lower(c) else c }

  function LowerAll(s: string): (t: string)
    ensures |t| == |s|
  {
    if s == "" then "" else [Lower(s[0])] + LowerAll(s[1..])
  }

  function HexValue(c: char): (v: Option<nat>)
    ensures v.Some? ==> v.value < 16
  {
    if IsDigit(c) then Some(c as int - '0' as int)
    else if 'a' <= c <= 'f' then Some(c as int - 'a' as int + 10)
    else if 'A' <= c <= 'F' then Some(c as int - 'A' as int + 10)
    else None
  }

  function HexDigit(v: nat): char
    requires v < 16
  {
    "0123456789ABCDEF"[v]
  }

  /** The first place `c` stands at, or the length. */
  function Find(s: string, c: char): (i: nat)
    ensures i <= |s|
    ensures i < |s| ==> s[i] == c
    ensures c !in s[..i]
  {
    if s == "" || s[0] == c then 0
    else
      var i := 1 + Find(s[1..], c);
      assert s[..i] == [s[0]] + s[1..][..i - 1];
      i
  }

  // ── Percent-encoding ───────────────────────────────────────────────────

  /** One character or encoded octet: its normal form and its length. */
  function PctUnit(s: string, part: Part, lower: bool): (u: Option<(string, nat)>)
    requires s != ""
    ensures u.Some? ==> 1 <= |u.value.0| <= u.value.1 <= |s|
  {
    if s[0] == '%' then
      if |s| < 3 || HexValue(s[1]).None? || HexValue(s[2]).None? then None
      else
        var hi := HexValue(s[1]).value;
        var lo := HexValue(s[2]).value;
        var octet := (16 * hi + lo) as char;
        Some((if IsUnreserved(octet) then [Fold(octet, lower)] else ['%', HexDigit(hi), HexDigit(lo)], 3))
    else if Allowed(s[0], part) then Some(([Fold(s[0], lower)], 1))
    else None
  }

  /** A whole component, unit by unit. */
  function PctNormal(s: string, part: Part, lower: bool): (t: Option<string>)
    ensures t.Some? ==> |t.value| <= |s| && (t.value == "" <==> s == "")
  {
    if s == "" then Some("")
    else
      match PctUnit(s, part, lower)
      case None => None
      case Some((text, n)) =>
        match PctNormal(s[n..], part, lower)
        case None => None
        case Some(rest) => Some(text + rest)
  }

  // ── Dot segments ───────────────────────────────────────────────────────

  /** The segments of a path, without the slashes between them. */
  function Split(s: string): (segs: seq<string>)
    ensures segs != []
  {
    var i := Find(s, '/');
    if i == |s| then [s] else [s[..i]] + Split(s[i + 1..])
  }

  /** Each segment after a slash of its own. */
  function Join(segs: seq<string>): string {
    if segs == [] then "" else "/" + segs[0] + Join(segs[1..])
  }

  predicate IsDot(seg: string) { seg == "." || seg == ".." }

  function Pop(stack: seq<string>): seq<string> {
    if stack == [] then [] else stack[..|stack| - 1]
  }

  /** An inner segment on the stack of those kept. */
  function Step(stack: seq<string>, seg: string): seq<string> {
    if seg == "." then stack else if seg == ".." then Pop(stack) else stack + [seg]
  }

  /** Section 5.2.4 on segments: a final dot segment leaves an empty one. */
  function Walk(stack: seq<string>, segs: seq<string>): seq<string>
    requires segs != []
    decreases |segs|
  {
    if |segs| == 1 then Step(stack, segs[0]) + (if IsDot(segs[0]) then [""] else [])
    else Walk(Step(stack, segs[0]), segs[1..])
  }

  /** A path that begins with a slash, without its dot segments. */
  function RemoveDots(path: string): string
    requires path != "" && path[0] == '/'
  {
    Join(Walk([], Split(path[1..])))
  }

  // ── Ports ──────────────────────────────────────────────────────────────

  /** What stands for the port: nothing when empty or the scheme's default. */
  function PortForm(port: string, default_: nat): Option<string> {
    if port == "" then Some("")
    else if port[0] != ':' then None
    else if port[1..] == "" then Some("")
    else if !AllDigits(port[1..]) || DigitsValue(port[1..]) > 65_535 then None
    else if DigitsValue(port[1..]) == default_ then Some("")
    else Some(":" + Decimal(DigitsValue(port[1..])))
  }

  // ── Authority and scheme ───────────────────────────────────────────────

  predicate IsLiteral(s: string) {
    s != "" && forall i :: 0 <= i < |s| ==> HexValue(s[i]).Some? || s[i] in ":."
  }

  /** Where the host ends and the port, if any, begins. */
  function HostEnd(auth: string): (i: nat)
    ensures i <= |auth|
  {
    if auth != "" && auth[0] == '[' then
      var close := Find(auth, ']');
      if close < |auth| then close + 1 else close
    else Find(auth, ':')
  }

  function HostForm(host: string): Option<string> {
    if host != "" && host[0] == '[' then
      if host[|host| - 1] == ']' && IsLiteral(host[1..|host| - 1]) then Some(LowerAll(host)) else None
    else if host == "" then None
    else PctNormal(host, InHost, true)
  }

  function AuthorityForm(auth: string, default_: nat): Option<string> {
    if '@' in auth then None
    else
      var end := HostEnd(auth);
      match (HostForm(auth[..end]), PortForm(auth[end..], default_))
      case (Some(h), Some(p)) => Some(h + p)
      case _ => None
  }

  function DefaultPort(scheme: string): Option<nat> {
    if LowerAll(scheme) == "https" then Some(443)
    else if LowerAll(scheme) == "http" then Some(80)
    else None
  }

  function PathForm(path: string): Option<string>
    requires path == "" || path[0] == '/'
  {
    if path == "" then Some("/")
    else
      match PctNormal(path, InPath, false)
      case None => None
      case Some(decoded) =>
        SlashStays(path);
        Some(RemoveDots(decoded))
  }

  lemma SlashStays(path: string)
    requires path != "" && path[0] == '/' && PctNormal(path, InPath, false).Some?
    ensures PctNormal(path, InPath, false).value[0] == '/'
  {
  }

  /** Up to the query or the fragment, whichever comes first. */
  function Cut(uri: string): (u: string)
    ensures u <= uri
  {
    uri[..if Find(uri, '?') < Find(uri, '#') then Find(uri, '?') else Find(uri, '#')]
  }

  datatype Parts = Parts(scheme: string, auth: string, path: string)

  /** Scheme, authority and path of a URI that has all three. */
  function PartsOf(u: string): (p: Option<Parts>)
    ensures p.Some? ==> p.value.path == "" || p.value.path[0] == '/'
  {
    var colon := Find(u, ':');
    if colon + 3 > |u| || u[colon + 1..colon + 3] != "//" then None
    else
      var end := AuthorityEnd(u, colon + 3);
      Some(Parts(u[..colon], u[colon + 3..end], u[end..]))
  }

  /** The first slash from `start` on, or the end. */
  function AuthorityEnd(u: string, start: nat): (end: nat)
    requires start <= |u|
    ensures start <= end <= |u| && (end < |u| ==> u[end] == '/')
    ensures '/' !in u[start..end]
  {
    var i := Find(u[start..], '/');
    assert u[start..][..i] == u[start..start + i];
    start + i
  }

  /** The normal forms of the parts, put together. */
  function FormOf(p: Parts): Option<string>
    requires p.path == "" || p.path[0] == '/'
  {
    match DefaultPort(p.scheme)
    case None => None
    case Some(d) =>
      match (AuthorityForm(p.auth, d), PathForm(p.path))
      case (Some(a), Some(path)) => Some(LowerAll(p.scheme) + "://" + a + path)
      case _ => None
  }

  /** The normal form of a URI without query or fragment. */
  function FormUncut(u: string): Option<string> {
    match PartsOf(u)
    case Some(p) => FormOf(p)
    case None => None
  }

  /** The normal form, whatever its length. */
  function Form(uri: string): Option<string> { FormUncut(Cut(uri)) }

  /** The normal form when both sides fit the buffer. */
  function Normal(uri: string): Option<string> {
    if |uri| > MAX_URI then None
    else
      match Form(uri)
      case Some(f) => if |f| <= MAX_URI then Some(f) else None
      case None => None
  }
}
