/** The base64 loops: three bytes packed into a word, and a 32-bit accumulator
    whose older bits are shifted out of it. */
module B64Loops {
  import opened Basics
  import opened B64

  const WORD := 0x1_0000_0000

  // ── Encoding ───────────────────────────────────────────────────────────

  /** Three bytes in a word, six bits at a time. */
  lemma PackedSextets(x: Byte, y: Byte, z: Byte, n: nat)
    requires n == x * 0x1_0000 + y * 0x100 + z
    ensures n / 0x4_0000 == x / 4 && n / 0x1000 % 64 == x % 4 * 16 + y / 16
    ensures n / 0x40 % 64 == y % 16 * 4 + z / 64 && n % 64 == z % 64
  {
    Quotient(n, 0x4_0000, x / 4, x % 4 * 0x1_0000 + y * 0x100 + z);
    Quotient(n, 0x1000, x * 16 + y / 16, y % 16 * 0x100 + z);
    Quotient(x * 16 + y / 16, 64, x / 4, x % 4 * 16 + y / 16);
    Quotient(n, 0x40, x * 0x400 + y * 4 + z / 64, z % 64);
    Quotient(x * 0x400 + y * 4 + z / 64, 64, x * 16 + y / 16, y % 16 * 4 + z / 64);
  }

  lemma CharsSplit(a: seq<Sextet>, b: seq<Sextet>, url: bool)
    ensures Chars(a + b, url) == Chars(a, url) + Chars(b, url)
  {
  }

  lemma SextetsStep(b: Bytes)
    requires |b| >= 3
    ensures Sextets(b) == Sextets(b[..3]) + Sextets(b[3..])
    ensures Sextets(b[..3]) == [b[0] / 4, b[0] % 4 * 16 + b[1] / 16, b[1] % 16 * 4 + b[2] / 64, b[2] % 64]
  {
    hide Sextets, Feed;
    var x, y, z := b[0], b[1], b[2];
    ThreeInFront(b, x, y, z);
    SextetsGroup(x, y, z, b[3..]);
    SextetsGroup(x, y, z, []);
    FeedNone();
    assert Sextets([x, y, z]) == [x / 4, x % 4 * 16 + y / 16, y % 16 * 4 + z / 64, z % 64];
  }

  lemma ThreeInFront(b: Bytes, x: Byte, y: Byte, z: Byte)
    requires |b| >= 3 && b[0] == x && b[1] == y && b[2] == z
    ensures b == [x, y, z] + b[3..] && b[..3] == [x, y, z] && [x, y, z] + [] == [x, y, z]
  {
  }

  /** Three bytes as four characters. */
  method PutGroup(x: Byte, y: Byte, z: Byte, out: array<char>, o: nat)
    requires o + 4 <= out.Length
    modifies out
    ensures out[o..o + 4] == Chars(Sextets([x, y, z]), true)
    ensures forall k :: 0 <= k < o || o + 4 <= k < out.Length ==> out[k] == old(out[k])
  {
    var word := x * 0x1_0000 + y * 0x100 + z;
    PackedSextets(x, y, z, word);
    SextetsStep([x, y, z]);
    assert [x, y, z][..3] == [x, y, z];
    out[o] := CharOf(word / 0x4_0000, true);
    out[o + 1] := CharOf(word / 0x1000 % 64, true);
    out[o + 2] := CharOf(word / 0x40 % 64, true);
    out[o + 3] := CharOf(word % 64, true);
  }

  /** The one or two bytes left over. */
  method PutRest(rest: Bytes, out: array<char>, o: nat)
    requires |rest| < 3 && o + EncodedLen(|rest|) <= out.Length
    modifies out
    ensures out[o..o + EncodedLen(|rest|)] == Chars(Sextets(rest), true)
    ensures forall k :: 0 <= k < o || o + EncodedLen(|rest|) <= k < out.Length ==> out[k] == old(out[k])
  {
    if |rest| == 1 {
      out[o] := CharOf(rest[0] / 4, true);
      out[o + 1] := CharOf(rest[0] % 4 * 16, true);
    } else if |rest| == 2 {
      out[o] := CharOf(rest[0] / 4, true);
      out[o + 1] := CharOf(rest[0] % 4 * 16 + rest[1] / 16, true);
      out[o + 2] := CharOf(rest[1] % 16 * 4, true);
    }
  }

  /** Text written so far, and the group after it. */
  lemma GroupJoins(all: string, done: string, input: Bytes, i: nat)
    requires i + 3 <= |input| && all == done + Chars(Sextets(input[i..]), true)
    ensures all == done + Chars(Sextets([input[i], input[i + 1], input[i + 2]]), true) + Chars(Sextets(input[i + 3..]), true)
  {
    SextetsStep(input[i..]);
    CharsSplit(Sextets(input[i..][..3]), Sextets(input[i..][3..]), true);
    assert input[i..][3..] == input[i + 3..] && input[i..][..3] == [input[i], input[i + 1], input[i + 2]];
  }

  method EncodeInto(input: Bytes, out: array<char>) returns (n: Option<nat>)
    modifies out
    ensures n == if EncodedLen(|input|) <= out.Length then Some(EncodedLen(|input|)) else None
    ensures n.Some? ==> out[..n.value] == Encode(input)
    ensures n.None? ==> out[..] == old(out[..])
  {
    hide Sextets, Chars;
    if out.Length < EncodedLen(|input|) {
      return None;
    }
    var i, o := 0, 0;
    ghost var all := Encode(input);
    assert input[0..] == input;
    while i + 3 <= |input|
      invariant i <= |input| && o + EncodedLen(|input| - i) == EncodedLen(|input|)
      invariant all == out[..o] + Chars(Sextets(input[i..]), true)
    {
      ghost var done := out[..o];
      GroupJoins(all, done, input, i);
      PutGroup(input[i], input[i + 1], input[i + 2], out, o);
      assert out[..o + 4] == done + out[o..o + 4];
      i, o := i + 3, o + 4;
    }
    ghost var done := out[..o];
    var rest := input[i..];
    PutRest(rest, out, o);
    o := o + EncodedLen(|rest|);
    assert out[..o] == done + Chars(Sextets(rest), true);
    return Some(o);
  }

  // ── Decoding ───────────────────────────────────────────────────────────

  /** The accumulator carries the pending bits at its low end. */
  ghost predicate Carries(acc: nat, rem: nat, bits: nat) {
    Pending(rem, bits)
    && match bits
       case 0 => true
       case 2 => acc % 4 == rem
       case 4 => acc % 16 == rem
       case _ => acc % 64 == rem
  }

  /** Six more bits, in thirty-two. */
  function Shifted(acc: nat, v: Sextet): nat { acc * 64 % WORD + v }

  /** The byte at the top of the pending bits, once there are eight. */
  function TopByte(acc: nat, bits: nat): Byte {
    match bits
    case 0 => acc % 256
    case 2 => acc / 4 % 256
    case _ => acc / 16 % 256
  }

  /** Adding a multiple does not change a remainder. */
  lemma ModPlus(k: nat, r: nat, m: nat)
    requires m == 4 || m == 16 || m == 64 || m == 256 || m == 1024 || m == 4096
    ensures (m * k + r) % m == r % m && (m * k + r) / m == k + r / m
  {
  }

  /** What the shift keeps of the accumulator: all but its top six bits. */
  lemma ShiftedIs(acc: nat, v: Sextet)
    ensures Shifted(acc, v) == acc % 0x400_0000 * 64 + v
  {
    var q, b := acc / 0x400_0000, acc % 0x400_0000;
    assert acc * 64 == WORD * q + b * 64;
  }

  lemma KeptBits(acc: nat)
    ensures var b := acc % 0x400_0000; b % 4 == acc % 4 && b % 16 == acc % 16 && b % 64 == acc % 64
  {
    var q, b := acc / 0x400_0000, acc % 0x400_0000;
    ModPlus(q * 0x100_0000, b, 4);
    ModPlus(q * 0x40_0000, b, 16);
    ModPlus(q * 0x10_0000, b, 64);
  }

  lemma LowBits(acc: nat, v: Sextet)
    ensures Shifted(acc, v) % 64 == v
    ensures Shifted(acc, v) % 256 == acc % 4 * 64 + v
    ensures Shifted(acc, v) % 1024 == acc % 16 * 64 + v
    ensures Shifted(acc, v) % 4096 == acc % 64 * 64 + v
  {
    hide Shifted;
    ShiftedIs(acc, v);
    KeptBits(acc);
    var b := acc % 0x400_0000;
    Quotient(b * 64 + v, 64, b, v);
    Quotient(b * 64 + v, 256, b / 4, b % 4 * 64 + v);
    Quotient(b * 64 + v, 1024, b / 16, b % 16 * 64 + v);
    Quotient(b * 64 + v, 4096, b / 64, b % 64 * 64 + v);
  }

  /** Shifting carries on as the pending bits do. */
  lemma ShiftCarries(acc: nat, rem: nat, bits: nat, v: Sextet)
    requires Carries(acc, rem, bits)
    ensures var one := Take(rem, bits, v);
            && Carries(Shifted(acc, v), one.rem, one.bits)
            && one.out == (if bits == 0 then [] else [TopByte(Shifted(acc, v), one.bits)])
  {
    LowBits(acc, v);
    TopBits(Shifted(acc, v));
    if bits == 2 {
      assert acc % 4 == rem;
    } else if bits == 4 {
      TopOfTen(rem, v);
    } else if bits == 6 {
      TopOfTwelve(rem, v);
    }
  }

  lemma TopOfTen(rem: nat, v: Sextet)
    requires rem < 16
    ensures (rem * 64 + v) / 4 == rem * 16 + v / 4 && (rem * 64 + v) % 4 == v % 4
  {
    ModPlus(rem * 16, v, 4);
  }

  lemma TopOfTwelve(rem: nat, v: Sextet)
    requires rem < 64
    ensures (rem * 64 + v) / 16 == rem * 4 + v / 16 && (rem * 64 + v) % 16 == v % 16
  {
    ModPlus(rem * 4, v, 16);
  }

  lemma TopBits(acc: nat)
    ensures acc / 4 % 256 == acc % 1024 / 4 && acc / 16 % 256 == acc % 4096 / 16
    ensures acc % 4 == acc % 1024 % 4 && acc % 16 == acc % 4096 % 16
  {
    var q, r := acc / 1024, acc % 1024;
    ModPlus(256 * q, r, 4);
    ModPlus(q, r / 4, 256);
    var p, s := acc / 4096, acc % 4096;
    ModPlus(256 * p, s, 16);
    ModPlus(p, s / 16, 256);
  }

  /** How many bytes `k` sextets have put out. */
  function OutSoFar(k: nat): nat { k * 6 / 8 }

  lemma FeedLength(rem: nat, bits: nat, vs: seq<Sextet>)
    requires Pending(rem, bits)
    ensures |Feed(rem, bits, vs).out| == (bits + 6 * |vs|) / 8
    ensures Feed(rem, bits, vs).bits == (bits + 6 * |vs|) % 8
    decreases |vs|
  {
    if vs != [] {
      var one := Take(rem, bits, vs[0]);
      FeedLength(one.rem, one.bits, vs[1..]);
    }
  }

  /** The loop's state after the characters of `t`. */
  ghost predicate Fed(t: string, url: bool, done: Bytes, acc: nat, bits: nat) {
    && AllRead(t, url) && |done| == OutSoFar(|t|)
    && (var r := Feed(0, 0, Values(t, url)); r.out == done && r.bits == bits && Carries(acc, r.rem, bits))
  }

  lemma FedStart(url: bool)
    ensures Fed("", url, [], 0, 0)
  {
  }

  /** The accumulator and the bits pending, once one more character is fed. */
  lemma FedStep(t: string, url: bool, c: char, done: Bytes, acc: nat, bits: nat)
    requires Fed(t, url, done, acc, bits) && ValueOf(c, url).Some?
    ensures bits == 0 || bits == 2 || bits == 4 || bits == 6
    ensures OutSoFar(|t| + 1) == OutSoFar(|t|) + (if bits == 0 then 0 else 1)
    ensures var acc' := Shifted(acc, ValueOf(c, url).value);
            if bits == 0 then Fed(t + [c], url, done, acc', 6)
            else Fed(t + [c], url, done + [TopByte(acc', bits - 2)], acc', bits - 2)
  {
    var r := Feed(0, 0, Values(t, url));
    FeedMore(t, url, c);
    ShiftCarries(acc, r.rem, bits, ValueOf(c, url).value);
    FeedLength(0, 0, Values(t, url));
    FeedLength(0, 0, Values(t + [c], url));
    assert r.out + [] == r.out;
  }

  /** The text decodes when nothing but zero bits is pending at its end. */
  lemma FedEnd(t: string, done: Bytes, acc: nat, bits: nat)
    requires Fed(t, true, done, acc, bits) && |t| % 4 != 1
    ensures Decode(t) == if Stray(acc, bits) then None else Some(done)
  {
  }

  /** Pending bits that are not all zero. */
  predicate Stray(acc: nat, bits: nat) {
    (bits == 2 && acc % 4 != 0) || (bits == 4 && acc % 16 != 0) || (bits == 6 && acc % 64 != 0)
  }

  lemma NoDecode(t: string, i: nat)
    requires i < |t| && ValueOf(t[i], true).None?
    ensures Decode(t).None?
  {
  }

  lemma DecodeLength(t: string)
    requires Decode(t).Some?
    ensures Some(|Decode(t).value|) == DecodedLen(|t|)
  {
    FeedLength(0, 0, Values(t, true));
    OutIsAll(|t|);
  }

  method DecodeInto(input: string, out: array<Byte>) returns (n: Option<nat>)
    modifies out
    ensures n.Some? <==> Decode(input).Some? && |Decode(input).value| <= out.Length
    ensures n.Some? ==> n.value <= out.Length && out[..n.value] == Decode(input).value
  {
    hide Fed, Decode, Shifted, TopByte, OutSoFar, Stray, DecodedLen, ValueOf;
    var need := DecodedLen(|input|);
    NeededLength(input);
    if need.None? {
      return None;
    }
    if out.Length < need.value {
      return None;
    }
    var o, acc, bits := 0, 0, 0;
    FedStart(true);
    FedCounts("", true, [], 0, 0);
    for i := 0 to |input|
      invariant o <= out.Length && o == OutSoFar(i) && Fed(input[..i], true, out[..o], acc, bits)
    {
      var v := ValueOf(input[i], true);
      if v.None? {
        NoDecode(input, i);
        return None;
      }
      ghost var done := out[..o];
      FedStep(input[..i], true, input[i], done, acc, bits);
      assert input[..i + 1] == input[..i] + [input[i]];
      acc := Shifted(acc, v.value);
      bits := bits + 6;
      if bits >= 8 {
        bits := bits - 8;
        RoomLeft(i, |input|, need.value);
        out[o] := TopByte(acc, bits);
        assert out[..o + 1] == done + [TopByte(acc, bits)];
        o := o + 1;
      }
    }
    assert input[..|input|] == input;
    FedEnd(input, out[..o], acc, bits);
    return if Stray(acc, bits) then None else Some(o);
  }

  lemma FedCounts(t: string, url: bool, done: Bytes, acc: nat, bits: nat)
    requires Fed(t, url, done, acc, bits)
    ensures |done| == OutSoFar(|t|)
  {
  }

  lemma NeededLength(t: string)
    ensures DecodedLen(|t|).None? <==> |t| % 4 == 1
    ensures DecodedLen(|t|).None? ==> Decode(t).None?
    ensures Decode(t).Some? ==> Some(|Decode(t).value|) == DecodedLen(|t|)
  {
    if Decode(t).Some? { DecodeLength(t); }
  }

  lemma OutIsAll(n: nat)
    requires n % 4 != 1
    ensures DecodedLen(n) == Some(OutSoFar(n))
  {
    assert n == 4 * (n / 4) + n % 4;
  }

  lemma RoomLeft(i: nat, n: nat, need: nat)
    requires i < n && DecodedLen(n) == Some(need)
    ensures OutSoFar(i + 1) <= need
  {
    OutIsAll(n);
  }

  /** One more character fed. */
  lemma FeedMore(t: string, url: bool, c: char)
    requires AllRead(t, url) && ValueOf(c, url).Some?
    ensures AllRead(t + [c], url)
    ensures var r := Feed(0, 0, Values(t, url));
            var one := Take(r.rem, r.bits, ValueOf(c, url).value);
            Feed(0, 0, Values(t + [c], url)) == Run(r.out + one.out, one.rem, one.bits)
  {
    assert Values(t + [c], url) == Values(t, url) + [ValueOf(c, url).value];
    FeedAppends(0, 0, Values(t, url), ValueOf(c, url).value);
  }

  lemma {:induction false} FeedAppends(rem: nat, bits: nat, vs: seq<Sextet>, v: Sextet)
    requires Pending(rem, bits)
    ensures var r := Feed(rem, bits, vs);
            var one := Take(r.rem, r.bits, v);
            Feed(rem, bits, vs + [v]) == Run(r.out + one.out, one.rem, one.bits)
    decreases |vs|
  {
    if vs == [] {
      FeedOne(v, [], rem, bits);
      assert [v] + [] == [] + [v];
      var one := Take(rem, bits, v);
      assert one.out + [] == [] + one.out;
    } else {
      var first := Take(rem, bits, vs[0]);
      FeedAppends(first.rem, first.bits, vs[1..], v);
      assert (vs + [v])[1..] == vs[1..] + [v];
      var r := Feed(first.rem, first.bits, vs[1..]);
      var one := Take(r.rem, r.bits, v);
      assert first.out + (r.out + one.out) == first.out + r.out + one.out;
    }
  }

  // ── Standard ───────────────────────────────────────────────────────────

  /** The url text made standard, in place. */
  method Translate(out: array<char>, m: nat, ghost vs: seq<Sextet>)
    requires m == |vs| <= out.Length && out[..m] == Chars(vs, true)
    modifies out
    ensures out[..m] == Chars(vs, false)
  {
    for i := 0 to m
      invariant forall k :: 0 <= k < i ==> out[k] == CharOf(vs[k], false)
      invariant forall k :: i <= k < m ==> out[k] == CharOf(vs[k], true)
    {
      SameButTwo(vs[i]);
      if out[i] == '-' {
        out[i] := '+';
      } else if out[i] == '_' {
        out[i] := '/';
      }
    }
  }

  method EncodeStandardInto(input: Bytes, out: array<char>) returns (n: Option<nat>)
    modifies out
    ensures n.Some? <==> |EncodeStandard(input)| <= out.Length
    ensures n.Some? ==> n.value <= out.Length && out[..n.value] == EncodeStandard(input)
  {
    var unpadded := EncodeInto(input, out);
    LengthIsPossible(|input|);
    if unpadded.None? {
      return None;
    }
    var m := unpadded.value;
    Translate(out, m, Sextets(input));
    var padded := (m + 3) / 4 * 4;
    PaddedLength(m);
    if padded > out.Length {
      return None;
    }
    ghost var text := out[..m];
    for i := m to padded
      invariant out[..m] == text
      invariant forall k :: m <= k < i ==> out[k] == '='
    {
      out[i] := '=';
    }
    assert out[m..padded] == Padding(m);
    assert out[..padded] == out[..m] + out[m..padded];
    return Some(padded);
  }

  /** What the standard loop has read: the text without its padding. */
  method DecodeStandardInto(input: string, out: array<Byte>) returns (n: Option<nat>)
    modifies out
    ensures n.Some? <==> DecodeStandard(input).Some? && |DecodeStandard(input).value| <= out.Length
    ensures n.Some? ==> n.value <= out.Length && out[..n.value] == DecodeStandard(input).value
  {
    hide Fed, DecodeStandard, Shifted, TopByte, OutSoFar, ValueOf, WithoutPadding;
    var o, acc, bits := 0, 0, 0;
    FedStart(false);
    FedCounts("", false, [], 0, 0);
    assert WithoutPadding("") == "" by { PaddingDrops("", ""); assert "" + "" == ""; }
    assert input[..0] == "";
    for i := 0 to |input|
      invariant o <= out.Length && o == OutSoFar(|WithoutPadding(input[..i])|)
      invariant Fed(WithoutPadding(input[..i]), false, out[..o], acc, bits)
    {
      assert input[..i + 1] == input[..i] + [input[i]];
      PaddingAppends(input[..i], input[i]);
      assert WithoutPadding(input[..i]) + "" == WithoutPadding(input[..i]);
      if input[i] != '=' {
        var v := ValueOf(input[i], false);
        if v.None? {
          NoDecodeStandard(input, i);
          return None;
        }
        ghost var done := out[..o];
        FedStep(WithoutPadding(input[..i]), false, input[i], done, acc, bits);
        acc := Shifted(acc, v.value);
        bits := bits + 6;
        if bits >= 8 {
          bits := bits - 8;
          if o >= out.Length {
            if DecodeStandard(input).Some? { OutAtLeast(input, i + 1); }
            return None;
          }
          out[o] := TopByte(acc, bits);
          assert out[..o + 1] == done + [TopByte(acc, bits)];
          o := o + 1;
        }
      }
    }
    assert input[..|input|] == input;
    FedEndStandard(input, out[..o], acc, bits);
    return Some(o);
  }

  lemma FedEndStandard(t: string, done: Bytes, acc: nat, bits: nat)
    requires Fed(WithoutPadding(t), false, done, acc, bits)
    ensures DecodeStandard(t) == Some(done)
  {
  }

  lemma {:induction false} PaddingAppends(t: string, c: char)
    ensures WithoutPadding(t + [c]) == WithoutPadding(t) + (if c == '=' then "" else [c])
  {
    if t == "" {
      assert [c][1..] == "" && t + [c] == [c];
    } else {
      assert (t + [c])[1..] == t[1..] + [c];
      PaddingAppends(t[1..], c);
    }
  }

  /** Padding is dropped part by part. */
  lemma {:induction false} PaddingSplits(a: string, b: string)
    ensures WithoutPadding(a + b) == WithoutPadding(a) + WithoutPadding(b)
  {
    if a == "" {
      assert a + b == b;
    } else {
      assert (a + b)[1..] == a[1..] + b;
      PaddingSplits(a[1..], b);
    }
  }

  /** A character that is not of the alphabet is refused wherever it stands. */
  lemma NoDecodeStandard(t: string, i: nat)
    requires i < |t| && t[i] != '=' && ValueOf(t[i], false).None?
    ensures DecodeStandard(t).None?
  {
    assert t == t[..i] + ([t[i]] + t[i + 1..]);
    PaddingSplits(t[..i], [t[i]] + t[i + 1..]);
    assert ([t[i]] + t[i + 1..])[1..] == t[i + 1..];
    var at := |WithoutPadding(t[..i])|;
    assert WithoutPadding(t)[at] == t[i];
  }

  /** What the first `i` characters put out is put out by the whole. */
  lemma OutAtLeast(t: string, i: nat)
    requires i <= |t| && DecodeStandard(t).Some?
    ensures OutSoFar(|WithoutPadding(t[..i])|) <= |DecodeStandard(t).value|
  {
    assert t == t[..i] + t[i..];
    PaddingSplits(t[..i], t[i..]);
    FeedLength(0, 0, Values(WithoutPadding(t), false));
  }

  lemma PaddedLength(m: nat)
    requires m % 4 != 1
    ensures (m + 3) / 4 * 4 == m + |Padding(m)|
  {
    assert m == 4 * (m / 4) + m % 4;
  }

  lemma SameButTwo(v: Sextet)
    ensures CharOf(v, false) == (if CharOf(v, true) == '-' then '+' else if CharOf(v, true) == '_' then '/' else CharOf(v, true))
  {
  }
}
