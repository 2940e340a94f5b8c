/** Base64url without padding (section 5 of RFC 4648) and padded standard
    base64, as accumulator loops over caller buffers. */
module B64 {
  import opened Basics

  type Bytes = seq<Byte>
  /** Six bits. */
  type Sextet = x: nat | x < 64

  // ── Alphabets ──────────────────────────────────────────────────────────

  /** Standard or url-safe: they differ in the last two characters. */
  function CharOf(v: Sextet, url: bool): char {
    if v < 26 then ('A' as int + v) as char
    else if v < 52 then ('a' as int + v - 26) as char
    else if v < 62 then ('0' as int + v - 52) as char
    else if v == 62 then (if url then '-' else '+')
    else if url then '_' else '/'
  }

  function ValueOf(c: char, url: bool): Option<Sextet> {
    if 'A' <= c <= 'Z' then Some(c as int - 'A' as int)
    else if 'a' <= c <= 'z' then Some(c as int - 'a' as int + 26)
    else if '0' <= c <= '9' then Some(c as int - '0' as int + 52)
    else if c == (if url then '-' else '+') then Some(62)
    else if c == (if url then '_' else '/') then Some(63)
    else None
  }

  lemma CharReads(v: Sextet, url: bool)
    ensures ValueOf(CharOf(v, url), url) == Some(v) && CharOf(v, url) != '='
  {
  }

  lemma ValueWrites(c: char, url: bool)
    requires ValueOf(c, url).Some?
    ensures CharOf(ValueOf(c, url).value, url) == c
  {
  }

  function Chars(vs: seq<Sextet>, url: bool): (t: string)
    ensures |t| == |vs| && forall i :: 0 <= i < |vs| ==> t[i] == CharOf(vs[i], url)
  {
    seq(|vs|, i requires 0 <= i < |vs| => CharOf(vs[i], url))
  }

  predicate AllRead(t: string, url: bool) { forall i :: 0 <= i < |t| ==> ValueOf(t[i], url).Some? }

  function Values(t: string, url: bool): (vs: seq<Sextet>)
    requires AllRead(t, url)
    ensures |vs| == |t| && forall i :: 0 <= i < |t| ==> vs[i] == ValueOf(t[i], url).value
  {
    seq(|t|, i requires 0 <= i < |t| => ValueOf(t[i], url).value)
  }

  // ── Encoding ───────────────────────────────────────────────────────────

  /** Three bytes are four sextets; one or two left are padded with zero bits. */
  function Sextets(b: Bytes): (vs: seq<Sextet>)
    ensures |vs| == EncodedLen(|b|)
  {
    if b == [] then []
    else if |b| == 1 then [b[0] / 4, b[0] % 4 * 16]
    else if |b| == 2 then [b[0] / 4, b[0] % 4 * 16 + b[1] / 16, b[1] % 16 * 4]
    else [b[0] / 4, b[0] % 4 * 16 + b[1] / 16, b[1] % 16 * 4 + b[2] / 64, b[2] % 64] + Sextets(b[3..])
  }

  /** `encoded_len`. */
  function EncodedLen(n: nat): nat { (n * 4 + 2) / 3 }

  /** `decoded_len`. */
  function DecodedLen(n: nat): Option<nat> {
    if n % 4 == 1 then None else Some(n / 4 * 3 + (if n % 4 == 2 then 1 else if n % 4 == 3 then 2 else 0))
  }

  function Encode(b: Bytes): string { Chars(Sextets(b), true) }

  // ── Decoding ───────────────────────────────────────────────────────────

  /** Bits pending after some sextets: `rem` of `bits` of them. */
  datatype Run = Run(out: Bytes, rem: nat, bits: nat)

  function Pow2(bits: nat): nat { if bits == 0 then 1 else 2 * Pow2(bits - 1) }

  predicate Pending(rem: nat, bits: nat) {
    (bits == 0 && rem == 0) || (bits == 2 && rem < 4) || (bits == 4 && rem < 16) || (bits == 6 && rem < 64)
  }

  /** One more sextet: a byte is out once there are eight bits. */
  function Take(rem: nat, bits: nat, v: Sextet): (r: Run)
    requires Pending(rem, bits)
    ensures Pending(r.rem, r.bits) && |r.out| <= 1
  {
    match bits
    case 0 => Run([], v, 6)
    case 2 => Run([rem * 64 + v], 0, 0)
    case 4 => Run([rem * 16 + v / 4], v % 4, 2)
    case _ => Run([rem * 4 + v / 16], v % 16, 4)
  }

  function Feed(rem: nat, bits: nat, vs: seq<Sextet>): (r: Run)
    requires Pending(rem, bits)
    ensures Pending(r.rem, r.bits)
    decreases |vs|
  {
    if vs == [] then Run([], rem, bits)
    else
      var one := Take(rem, bits, vs[0]);
      var rest := Feed(one.rem, one.bits, vs[1..]);
      Run(one.out + rest.out, rest.rem, rest.bits)
  }

  /** Text that decodes: a possible length, known characters, no stray bits. */
  function Decode(t: string): Option<Bytes> {
    if |t| % 4 == 1 || !AllRead(t, true) then None
    else
      var r := Feed(0, 0, Values(t, true));
      if r.rem != 0 then None else Some(r.out)
  }

  // ── Inverses ───────────────────────────────────────────────────────────

  lemma FeedOne(v: Sextet, rest: seq<Sextet>, rem: nat, bits: nat)
    requires Pending(rem, bits)
    ensures var one := Take(rem, bits, v);
            var after := Feed(one.rem, one.bits, rest);
            Feed(rem, bits, [v] + rest) == Run(one.out + after.out, after.rem, after.bits)
  {
    assert ([v] + rest)[1..] == rest;
  }

  /** What is out, then what follows. */
  function Then(out: Bytes, after: Run): Run { Run(out + after.out, after.rem, after.bits) }

  lemma FeedTwo(a: Sextet, b: Sextet, rest: seq<Sextet>)
    ensures Feed(0, 0, [a, b] + rest) == Then([a * 4 + b / 16], Feed(b % 16, 4, rest))
  {
    assert [a, b] + rest == [a] + ([b] + rest);
    FeedOne(a, [b] + rest, 0, 0);
    FeedOne(b, rest, a, 6);
    assert [] + ([a * 4 + b / 16] + Feed(b % 16, 4, rest).out) == [a * 4 + b / 16] + Feed(b % 16, 4, rest).out;
  }

  lemma FeedTwoMore(rem: nat, c: Sextet, d: Sextet, rest: seq<Sextet>)
    requires rem < 16
    ensures Feed(rem, 4, [c, d] + rest) == Then([rem * 16 + c / 4, c % 4 * 64 + d], Feed(0, 0, rest))
  {
    assert [c, d] + rest == [c] + ([d] + rest);
    FeedOne(c, [d] + rest, rem, 4);
    FeedOne(d, rest, c % 4, 2);
    assert [rem * 16 + c / 4] + ([c % 4 * 64 + d] + Feed(0, 0, rest).out)
        == [rem * 16 + c / 4, c % 4 * 64 + d] + Feed(0, 0, rest).out;
  }

  /** A group of four sextets is three bytes. */
  lemma FeedFour(a: Sextet, b: Sextet, c: Sextet, d: Sextet, rest: seq<Sextet>)
    ensures Feed(0, 0, [a, b, c, d] + rest)
         == Then([a * 4 + b / 16, b % 16 * 16 + c / 4, c % 4 * 64 + d], Feed(0, 0, rest))
  {
    assert [a, b, c, d] + rest == [a, b] + ([c, d] + rest);
    FeedTwo(a, b, [c, d] + rest);
    FeedTwoMore(b % 16, c, d, rest);
    hide Feed;
    var out := Feed(0, 0, rest).out;
    assert [a * 4 + b / 16] + ([b % 16 * 16 + c / 4, c % 4 * 64 + d] + out)
        == [a * 4 + b / 16, b % 16 * 16 + c / 4, c % 4 * 64 + d] + out;
  }

  lemma FeedShort(a: Sextet, b: Sextet, c: Sextet)
    ensures Feed(0, 0, [a, b]) == Run([a * 4 + b / 16], b % 16, 4)
    ensures Feed(0, 0, [a, b, c]) == Run([a * 4 + b / 16, b % 16 * 16 + c / 4], c % 4, 2)
  {
    FeedOne(a, [b], 0, 0);
    FeedOne(b, [], a, 6);
    FeedOne(a, [b, c], 0, 0);
    FeedOne(b, [c], a, 6);
    FeedOne(c, [], b % 16, 4);
    assert [a, b] == [a] + [b] && [b] == [b] + [] && [a, b, c] == [a] + [b, c] && [b, c] == [b] + [c] && [c] == [c] + [];
    assert [] + ([a * 4 + b / 16] + []) == [a * 4 + b / 16];
  }

  lemma BytesReturn(x: Byte, y: Byte, z: Byte)
    ensures x / 4 * 4 + (x % 4 * 16 + y / 16) / 16 == x
    ensures (x % 4 * 16 + y / 16) % 16 * 16 + (y % 16 * 4 + z / 64) / 4 == y
    ensures (y % 16 * 4 + z / 64) % 4 * 64 + z % 64 == z
  {
  }

  /** Three bytes in front are four sextets in front. */
  lemma SextetsGroup(x: Byte, y: Byte, z: Byte, rest: Bytes)
    ensures Sextets([x, y, z] + rest)
         == [x / 4, x % 4 * 16 + y / 16, y % 16 * 4 + z / 64, z % 64] + Sextets(rest)
  {
    assert ([x, y, z] + rest)[3..] == rest;
  }

  /** Nothing is fed, and nothing comes out. */
  lemma FeedNone()
    ensures Sextets([]) == [] && Feed(0, 0, []) == Run([], 0, 0)
  {
  }

  lemma OneByte(x: Byte)
    ensures Sextets([x]) == [x / 4, x % 4 * 16] && Feed(0, 0, Sextets([x])) == Run([x], 0, 4)
  {
    BytesReturn(x, 0, 0);
    FeedShort(x / 4, x % 4 * 16, 0);
  }

  lemma TwoBytes(x: Byte, y: Byte)
    ensures Sextets([x, y]) == [x / 4, x % 4 * 16 + y / 16, y % 16 * 4] && Feed(0, 0, Sextets([x, y])) == Run([x, y], 0, 2)
  {
    BytesReturn(x, y, 0);
    FeedShort(x / 4, x % 4 * 16 + y / 16, y % 16 * 4);
  }

  /** The bytes come back from their sextets, with nothing over. */
  lemma {:induction false} FeedSextets(b: Bytes)
    ensures Feed(0, 0, Sextets(b)).out == b && Feed(0, 0, Sextets(b)).rem == 0
  {
    hide Sextets, Feed;
    if b == [] {
      FeedNone();
    } else if |b| == 1 {
      assert b == [b[0]];
      OneByte(b[0]);
    } else if |b| == 2 {
      assert b == [b[0], b[1]];
      TwoBytes(b[0], b[1]);
    } else {
      assert b == [b[0], b[1], b[2]] + b[3..];
      FeedSextets(b[3..]);
      FeedGroup(b[0], b[1], b[2], b[3..]);
    }
  }

  lemma FeedGroup(x: Byte, y: Byte, z: Byte, rest: Bytes)
    ensures Feed(0, 0, Sextets([x, y, z] + rest)) == Then([x, y, z], Feed(0, 0, Sextets(rest)))
  {
    hide Sextets, Feed;
    SextetsGroup(x, y, z, rest);
    BytesReturn(x, y, z);
    FeedFour(x / 4, x % 4 * 16 + y / 16, y % 16 * 4 + z / 64, z % 64, Sextets(rest));
  }

  lemma TwoSextets(a: Sextet, b: Sextet)
    requires b % 16 == 0
    ensures Sextets([a * 4 + b / 16]) == [a, b]
  {
  }

  lemma ThreeSextets(a: Sextet, b: Sextet, c: Sextet)
    requires c % 4 == 0
    ensures Sextets([a * 4 + b / 16, b % 16 * 16 + c / 4]) == [a, b, c]
  {
  }

  /** And the sextets from their bytes, when they leave nothing over. */
  lemma {:induction false} SextetsOfFeed(vs: seq<Sextet>)
    requires |vs| % 4 != 1 && Feed(0, 0, vs).rem == 0
    ensures Sextets(Feed(0, 0, vs).out) == vs
    decreases |vs|
  {
    hide Sextets, Feed, Take;
    if vs == [] {
      FeedNone();
    } else if |vs| == 2 {
      assert vs == [vs[0], vs[1]];
      FeedShort(vs[0], vs[1], 0);
      TwoSextets(vs[0], vs[1]);
    } else if |vs| == 3 {
      assert vs == [vs[0], vs[1], vs[2]];
      FeedShort(vs[0], vs[1], vs[2]);
      ThreeSextets(vs[0], vs[1], vs[2]);
    } else {
      var rest := vs[4..];
      assert vs == [vs[0], vs[1], vs[2], vs[3]] + rest;
      FeedFour(vs[0], vs[1], vs[2], vs[3], rest);
      assert |rest| % 4 == |vs| % 4;
      SextetsOfFeed(rest);
      GroupReturns(vs[0], vs[1], vs[2], vs[3], Feed(0, 0, rest).out);
    }
  }

  lemma GroupReturns(a: Sextet, b: Sextet, c: Sextet, d: Sextet, rest: Bytes)
    ensures Sextets([a * 4 + b / 16, b % 16 * 16 + c / 4, c % 4 * 64 + d] + rest) == [a, b, c, d] + Sextets(rest)
  {
    hide Sextets;
    SextetsReturn(a, b, c, d);
    SextetsGroup(a * 4 + b / 16, b % 16 * 16 + c / 4, c % 4 * 64 + d, rest);
  }

  lemma SextetsReturn(a: Sextet, b: Sextet, c: Sextet, d: Sextet)
    ensures (a * 4 + b / 16) / 4 == a && (a * 4 + b / 16) % 4 * 16 + (b % 16 * 16 + c / 4) / 16 == b
    ensures (b % 16 * 16 + c / 4) % 16 * 4 + (c % 4 * 64 + d) / 64 == c && (c % 4 * 64 + d) % 64 == d
  {
  }

  lemma CharsReadBack(vs: seq<Sextet>, url: bool)
    ensures AllRead(Chars(vs, url), url) && Values(Chars(vs, url), url) == vs && '=' !in Chars(vs, url)
  {
    forall i | 0 <= i < |vs| ensures ValueOf(CharOf(vs[i], url), url) == Some(vs[i]) && CharOf(vs[i], url) != '=' {
      CharReads(vs[i], url);
    }
  }

  lemma LengthIsPossible(n: nat)
    ensures EncodedLen(n) % 4 != 1 && DecodedLen(EncodedLen(n)) == Some(n)
  {
    var q, r := n / 3, n % 3;
    assert n == 3 * q + r;
  }

  /** Decoding undoes encoding. */
  lemma DecodeEncoded(b: Bytes)
    ensures Decode(Encode(b)) == Some(b)
  {
    LengthIsPossible(|b|);
    CharsReadBack(Sextets(b), true);
    FeedSextets(b);
  }

  /** Encoding undoes decoding: each byte string has one accepted spelling. */
  lemma EncodeDecoded(t: string)
    requires Decode(t).Some?
    ensures Encode(Decode(t).value) == t
  {
    SextetsOfFeed(Values(t, true));
    forall i | 0 <= i < |t| ensures CharOf(Values(t, true)[i], true) == t[i] { ValueWrites(t[i], true); }
  }

  lemma OneSpelling(t: string, u: string)
    requires Decode(t).Some? && Decode(t) == Decode(u)
    ensures t == u
  {
    EncodeDecoded(t);
    EncodeDecoded(u);
  }

  // ── Standard base64 ────────────────────────────────────────────────────

  function Padding(n: nat): string { if n % 4 == 2 then "==" else if n % 4 == 3 then "=" else "" }

  /** `encode_standard`: the url encoding translated, then padded. */
  function EncodeStandard(b: Bytes): string { Chars(Sextets(b), false) + Padding(EncodedLen(|b|)) }

  function WithoutPadding(t: string): string {
    if t == "" then "" else if t[0] == '=' then WithoutPadding(t[1..]) else [t[0]] + WithoutPadding(t[1..])
  }

  /** `decode_standard`: padding is passed over wherever it stands, and stray
      bits are dropped. */
  function DecodeStandard(t: string): Option<Bytes> {
    var u := WithoutPadding(t);
    if AllRead(u, false) then Some(Feed(0, 0, Values(u, false)).out) else None
  }

  lemma {:induction false} PaddingDrops(t: string, pad: string)
    requires '=' !in t && forall i :: 0 <= i < |pad| ==> pad[i] == '='
    ensures WithoutPadding(t + pad) == t
  {
    if t != "" {
      assert (t + pad)[1..] == t[1..] + pad;
      PaddingDrops(t[1..], pad);
    } else {
      assert t + pad == pad;
      if pad != "" { PaddingDrops("", pad[1..]); assert "" + pad[1..] == pad[1..]; }
    }
  }

  /** Padded standard text decodes to what it was made from. */
  lemma DecodeStandardEncoded(b: Bytes)
    ensures DecodeStandard(EncodeStandard(b)) == Some(b)
  {
    CharsReadBack(Sextets(b), false);
    PaddingDrops(Chars(Sextets(b), false), Padding(EncodedLen(|b|)));
    FeedSextets(b);
  }

  /** Unlike the url form, standard text has many spellings. */
  lemma StandardHasManySpellings()
    ensures DecodeStandard("QQ==") == DecodeStandard("=Q=Q") == DecodeStandard("QR") == Some([65])
  {
    PaddingDrops("QQ", "==");
    PaddingDrops("QR", "");
    assert WithoutPadding("=Q=Q") == "QQ" by {
      assert "=Q=Q"[1..] == "Q=Q" && "Q=Q"[1..] == "=Q" && "=Q"[1..] == "Q" && "Q"[1..] == "";
      assert ['Q'] + "" == "Q" && ['Q'] + "Q" == "QQ";
    }
    assert "QQ" + "==" == "QQ==" && "QR" + "" == "QR";
    FeedShort(16, 16, 0);
    FeedShort(16, 17, 0);
    assert Values("QQ", false) == [16, 16] && Values("QR", false) == [16, 17];
  }
}
