/** Which spellings of standard base64 are the one that encoding writes. The
    decoder passes over padding wherever it stands and drops stray bits, so
    its accepted texts are more than that. */
module B64Standard {
  import opened Basics
  import opened B64

  /** How many of the last two characters are padding. */
  function Trailing(t: string): (k: nat)
    ensures k <= |t|
  {
    if |t| >= 2 && t[|t| - 1] == '=' && t[|t| - 2] == '=' then 2
    else if |t| >= 1 && t[|t| - 1] == '=' then 1
    else 0
  }

  /** A character's six bits. */
  function Bits(c: char): nat { match ValueOf(c, false) case Some(v) => v case None => 0 }

  /** What a caller can see in the text: whole groups of four, '=' only where
      the last group is short, and no bits dropped there. */
  predicate Canonical(t: string) {
    var k := Trailing(t);
    && |t| % 4 == 0 && '=' !in t[..|t| - k]
    && (k == 2 ==> |t| >= 3 && Bits(t[|t| - 3]) % 16 == 0)
    && (k == 1 ==> |t| >= 2 && Bits(t[|t| - 2]) % 4 == 0)
  }

  /** The bits left pending are the low bits of the last sextet. */
  lemma {:induction false} PendingAtEnd(vs: seq<Sextet>)
    requires |vs| % 4 != 1
    ensures |vs| % 4 == 0 ==> Feed(0, 0, vs).rem == 0
    ensures |vs| % 4 == 2 ==> Feed(0, 0, vs).rem == vs[|vs| - 1] % 16
    ensures |vs| % 4 == 3 ==> Feed(0, 0, vs).rem == vs[|vs| - 1] % 4
    decreases |vs|
  {
    hide Feed;
    if vs == [] {
      FeedNone();
    } else if |vs| == 2 {
      assert vs == [vs[0], vs[1]];
      FeedShort(vs[0], vs[1], 0);
    } else if |vs| == 3 {
      assert vs == [vs[0], vs[1], vs[2]];
      FeedShort(vs[0], vs[1], vs[2]);
    } else {
      var rest := vs[4..];
      assert vs == [vs[0], vs[1], vs[2], vs[3]] + rest;
      FeedFour(vs[0], vs[1], vs[2], vs[3], rest);
      assert |rest| % 4 == |vs| % 4;
      PendingAtEnd(rest);
    }
  }

  /** Encoding leaves its last sextet's spare bits zero. */
  lemma LastSextet(b: Bytes)
    ensures |Sextets(b)| % 4 == 2 ==> Sextets(b)[|Sextets(b)| - 1] % 16 == 0
    ensures |Sextets(b)| % 4 == 3 ==> Sextets(b)[|Sextets(b)| - 1] % 4 == 0
  {
    LengthIsPossible(|b|);
    FeedSextets(b);
    PendingAtEnd(Sextets(b));
  }

  /** What encoding writes is canonical. */
  lemma EncodedIsCanonical(b: Bytes)
    ensures Canonical(EncodeStandard(b))
  {
    hide Sextets;
    var vs := Sextets(b);
    var body := Chars(vs, false);
    LengthIsPossible(|b|);
    CharsReadBack(vs, false);
    LastSextet(b);
    BodyThenPadding(body, Padding(|vs|));
    if |vs| > 0 { CharReads(vs[|vs| - 1], false); }
  }

  /** Unpadded text of a possible length, then the padding it takes. */
  lemma BodyThenPadding(body: string, pad: string)
    requires '=' !in body && |body| % 4 != 1 && pad == Padding(|body|)
    ensures |body + pad| % 4 == 0 && Trailing(body + pad) == |pad|
    ensures (body + pad)[..|body|] == body
  {
    var t := body + pad;
    if |pad| < 2 && |body| > 0 { assert t[|body| - 1] == body[|body| - 1] != '='; }
    assert |body| == 4 * (|body| / 4) + |body| % 4;
  }

  /** Canonical text is what encoding makes of what it decodes to. */
  lemma CanonicalIsEncoded(t: string, b: Bytes)
    requires DecodeStandard(t) == Some(b) && Canonical(t)
    ensures t == EncodeStandard(b)
  {
    hide Sextets, Feed;
    var k := Trailing(t);
    var body, pad := t[..|t| - k], t[|t| - k..];
    assert t == body + pad;
    PaddingDrops(body, pad);
    var vs := Values(body, false);
    assert |vs| % 4 == (4 - k) % 4;
    PendingAtEnd(vs);
    SextetsOfFeed(vs);
    forall i | 0 <= i < |body| ensures CharOf(vs[i], false) == body[i] { ValueWrites(body[i], false); }
    assert Chars(vs, false) == body;
    assert pad == Padding(|vs|);
  }

  /** A text that decodes is the encoding of what it decodes to exactly when
      it is canonical: only then does padding just end the input. */
  lemma StandardSpelling(t: string, b: Bytes)
    requires DecodeStandard(t) == Some(b)
    ensures t == EncodeStandard(b) <==> Canonical(t)
  {
    EncodedIsCanonical(b);
    if Canonical(t) { CanonicalIsEncoded(t, b); }
  }
}
