/** Compact JWS: three base64url segments and the dots between them. */
module Jws {
  import opened Basics
  import opened B64
  import opened B64Loops

  // ── Assembling ─────────────────────────────────────────────────────────

  /** What is signed. */
  function SigningInput(header: Bytes, claims: Bytes): string { Encode(header) + "." + Encode(claims) }

  function Token(header: Bytes, claims: Bytes, signature: Bytes): string {
    SigningInput(header, claims) + "." + Encode(signature)
  }

  /** Encode into the part of a buffer that begins at `at`. */
  method EncodeAt(input: Bytes, out: array<char>, at: nat) returns (n: Option<nat>)
    requires at <= out.Length
    modifies out
    ensures n == if at + EncodedLen(|input|) <= out.Length then Some(at + EncodedLen(|input|)) else None
    ensures n.Some? ==> out[at..n.value] == Encode(input)
    ensures forall k :: 0 <= k < at ==> out[k] == old(out[k])
  {
    var part := new char[out.Length - at];
    var m := EncodeInto(input, part);
    if m.None? {
      return None;
    }
    for i := 0 to m.value
      invariant forall k :: at <= k < at + i ==> out[k] == part[k - at]
      invariant forall k :: 0 <= k < at ==> out[k] == old(out[k])
      invariant part[..m.value] == Encode(input)
    {
      out[at + i] := part[i];
    }
    return Some(at + m.value);
  }

  /** `signing_input`. */
  method WriteSigningInput(header: Bytes, claims: Bytes, out: array<char>) returns (n: Option<nat>)
    modifies out
    ensures n.Some? <==> |SigningInput(header, claims)| <= out.Length
    ensures n.Some? ==> n.value <= out.Length && out[..n.value] == SigningInput(header, claims)
  {
    var h := EncodedLen(|header|);
    if out.Length < h + 1 + EncodedLen(|claims|) {
      return None;
    }
    hide Encode, EncodedLen;
    var first := EncodeAt(header, out, 0);
    assert out[0..h] == out[..h] == Encode(header);
    out[h] := '.';
    assert out[..h] == Encode(header);
    var second := EncodeAt(claims, out, h + 1);
    var end := second.value;
    assert out[..h] == Encode(header);
    assert out[..end] == out[..h] + [out[h]] + out[h + 1..end];
    return Some(end);
  }

  /** `append_signature`. */
  method AppendSignature(out: array<char>, inputLen: nat, signature: Bytes) returns (n: Option<nat>)
    requires inputLen <= out.Length
    modifies out
    ensures n.Some? <==> inputLen + 1 + EncodedLen(|signature|) <= out.Length
    ensures n.Some? ==> n.value <= out.Length && out[..n.value] == old(out[..inputLen]) + "." + Encode(signature)
  {
    if out.Length < inputLen + 1 + EncodedLen(|signature|) {
      return None;
    }
    ghost var before := out[..inputLen];
    out[inputLen] := '.';
    var end := EncodeAt(signature, out, inputLen + 1);
    assert out[..inputLen] == before;
    assert out[..end.value] == out[..inputLen] + [out[inputLen]] + out[inputLen + 1..end.value];
    return end;
  }

  // ── Splitting ──────────────────────────────────────────────────────────

  datatype Parts = Parts(input: string, header: string, payload: string, signature: string)

  /** Three segments without dots, none empty, joined by dots. */
  ghost predicate IsSplit(token: string, p: Parts) {
    && token == p.header + "." + p.payload + "." + p.signature
    && p.input == p.header + "." + p.payload
    && '.' !in p.header && '.' !in p.payload && '.' !in p.signature
    && p.header != "" && p.payload != "" && p.signature != ""
  }

  /** `Jws::split`: the parts, if and only if the token is three such segments. */
  method Split(token: string) returns (r: Option<Parts>)
    ensures r.Some? ==> IsSplit(token, r.value)
    ensures r.None? ==> forall p :: !IsSplit(token, p)
  {
    var dot1: Option<nat>, dot2: Option<nat> := None, None;
    for i := 0 to |token|
      invariant dot1.None? ==> dot2.None? && '.' !in token[..i]
      invariant dot1.Some? ==> dot1.value < i && IsDotAt(token, dot1.value) && '.' !in token[..dot1.value]
      invariant dot1.Some? && dot2.None? ==> '.' !in token[dot1.value + 1..i]
      invariant dot2.Some? ==> dot1.Some? && dot1.value < dot2.value < i && IsDotAt(token, dot2.value)
                               && '.' !in token[dot1.value + 1..dot2.value] && '.' !in token[dot2.value + 1..i]
    {
      if token[i] == '.' {
        if dot1.None? {
          dot1 := Some(i);
        } else if dot2.None? {
          dot2 := Some(i);
        } else {
          ThreeDots(token, dot1.value, dot2.value, i);
          return None;
        }
      }
    }
    assert token[..|token|] == token;
    if dot1.None? || dot2.None? {
      FewDots(token, dot1);
      return None;
    }
    var d1, d2 := dot1.value, dot2.value;
    TwoDots(token, d1, d2);
    if d1 == 0 || d2 == d1 + 1 || d2 + 1 >= |token| {
      return None;
    }
    return Some(Parts(token[..d2], token[..d1], token[d1 + 1..d2], token[d2 + 1..]));
  }

  predicate IsDotAt(token: string, i: nat) { i < |token| && token[i] == '.' }

  /** Where the dots of a split token are. */
  lemma DotsOfSplit(token: string, p: Parts)
    requires IsSplit(token, p)
    ensures forall i: nat :: IsDotAt(token, i) <==> i == |p.header| || i == |p.header| + 1 + |p.payload|
    ensures IsDotAt(token, |p.header|) && IsDotAt(token, |p.header| + 1 + |p.payload|)
  {
    var n, m := |p.header|, |p.payload|;
    forall i: nat | i < |token|
      ensures token[i] == if i < n then p.header[i] else if i == n then '.' else if i < n + 1 + m then p.payload[i - n - 1]
                          else if i == n + 1 + m then '.' else p.signature[i - n - m - 2]
    {
    }
  }

  lemma ThreeDots(token: string, a: nat, b: nat, c: nat)
    requires a < b < c && IsDotAt(token, a) && IsDotAt(token, b) && IsDotAt(token, c)
    ensures forall p :: !IsSplit(token, p)
  {
    forall p ensures !IsSplit(token, p) {
      if IsSplit(token, p) { DotsOfSplit(token, p); }
    }
  }

  lemma FewDots(token: string, d: Option<nat>)
    requires forall i: nat :: IsDotAt(token, i) ==> d == Some(i)
    ensures forall p :: !IsSplit(token, p)
  {
    forall p ensures !IsSplit(token, p) {
      if IsSplit(token, p) {
        DotsOfSplit(token, p);
      }
    }
  }

  lemma TwoDots(token: string, d1: nat, d2: nat)
    requires d1 < d2 && IsDotAt(token, d1) && IsDotAt(token, d2)
    requires '.' !in token[..d1] && '.' !in token[d1 + 1..d2] && '.' !in token[d2 + 1..]
    ensures token == token[..d1] + "." + token[d1 + 1..d2] + "." + token[d2 + 1..]
    ensures token[..d2] == token[..d1] + "." + token[d1 + 1..d2]
    ensures forall p :: IsSplit(token, p) ==> |p.header| == d1 && |p.header| + 1 + |p.payload| == d2
  {
    forall p | IsSplit(token, p) ensures |p.header| == d1 && |p.header| + 1 + |p.payload| == d2 {
      DotsOfSplit(token, p);
    }
  }

  // ── Round trip ─────────────────────────────────────────────────────────

  lemma EncodedHasNoDots(b: Bytes)
    ensures '.' !in Encode(b) && (Encode(b) == "" <==> b == [])
  {
    CharsReadBack(Sextets(b), true);
    forall v: Sextet ensures CharOf(v, true) != '.' { CharReads(v, true); }
  }

  /** A token splits if and only if none of its three parts is empty, into the
      segments it was made of, whose text is their bytes' only spelling. */
  lemma TokenSplits(header: Bytes, claims: Bytes, signature: Bytes)
    ensures var p := Parts(SigningInput(header, claims), Encode(header), Encode(claims), Encode(signature));
            && (IsSplit(Token(header, claims, signature), p) <==> header != [] && claims != [] && signature != [])
            && Decode(p.header) == Some(header) && Decode(p.payload) == Some(claims) && Decode(p.signature) == Some(signature)
  {
    EncodedHasNoDots(header);
    EncodedHasNoDots(claims);
    EncodedHasNoDots(signature);
    DecodeEncoded(header);
    DecodeEncoded(claims);
    DecodeEncoded(signature);
  }

  /** And into nothing else. */
  lemma SplitIsUnique(token: string, p: Parts, q: Parts)
    requires IsSplit(token, p) && IsSplit(token, q)
    ensures p == q
  {
    DotsOfSplit(token, p);
    DotsOfSplit(token, q);
    assert IsDotAt(token, |p.header|) && IsDotAt(token, |q.header|);
    assert IsDotAt(token, |p.header| + 1 + |p.payload|) && IsDotAt(token, |q.header| + 1 + |q.payload|);
    var n, m := |p.header|, |p.payload|;
    assert p.header == token[..n] == q.header;
    assert p.payload == token[n + 1..n + 1 + m] == q.payload;
    assert p.signature == token[n + m + 2..] == q.signature;
  }
}
