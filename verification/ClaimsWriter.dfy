/** `write_access_claims_ext`: validate, sort, merge and emit; and what the
    scanner reads back from the result. */
module ClaimsWriter {
  import opened Basics
  import opened Numerals
  import opened Json
  import opened JsonWriter
  import opened JsonScan
  import opened Claims
  import opened ClaimsMerge

  /** The first fault of a list of custom claims, in the order of checking. */
  method CheckKeys(extra: seq<Member>) returns (r: Check<Refusal>)
    ensures r.Passed? <==> forall i :: 0 <= i < |extra| ==> IsValidKey(extra[i].key) && !IsReserved(extra[i].key)
    ensures r.Refused? ==> exists k ::
              && 0 <= k < |extra|
              && (forall i :: 0 <= i < k ==> IsValidKey(extra[i].key) && !IsReserved(extra[i].key))
              && r.error == (if IsValidKey(extra[k].key) then DuplicateClaimKey else InvalidClaimKey)
              && (IsValidKey(extra[k].key) ==> IsReserved(extra[k].key))
  {
    for k := 0 to |extra|
      invariant forall i :: 0 <= i < k ==> IsValidKey(extra[i].key) && !IsReserved(extra[i].key)
    {
      if !IsValidKey(extra[k].key) {
        return Refused(InvalidClaimKey);
      }
      if IsReserved(extra[k].key) {
        return Refused(DuplicateClaimKey);
      }
    }
    return Passed;
  }

  /** What is left to write, after what is written. */
  ghost predicate Emitting(all: string, written: string, left: seq<Member>, first: bool) {
    if first then left != [] && written == "{" && all == Object(left) else all == written + Rest(left)
  }

  lemma EmitNext(all: string, written: string, left: seq<Member>, first: bool)
    requires Emitting(all, written, left, first) && left != []
    ensures var piece := (if first then "" else ",") + MemberText(left[0]);
            && Emitting(all, written + piece, left[1..], false)
            && |written| + |piece| <= |all|
  {
    var piece := (if first then "" else ",") + MemberText(left[0]);
    if first {
      assert piece == MemberText(left[0]);
    } else {
      Regroup(written, piece, Rest(left[1..]));
    }
  }

  /** Write the members in order; the comma goes before all but the first. */
  method EmitMember(w: Writer, m: Member, first: bool) returns (ok: bool)
    requires w.Valid() && (m.value.Number? ==> m.value.n <= U64_MAX)
    modifies w`pos, w.out
    ensures w.Valid() && ok == (old(w.pos) + |(if first then "" else ",") + MemberText(m)| <= w.out.Length)
    ensures ok ==> w.Written() == old(w.Written()) + ((if first then "" else ",") + MemberText(m))
  {
    ghost var before := w.Written();
    if first {
      assert "" + MemberText(m) == MemberText(m);
      ok := w.WriteMember(m);
    } else {
      Regroup(before, ",", MemberText(m));
      ok := w.WriteRaw(",");
      if ok { ok := w.WriteMember(m); }
    }
  }

  predicate ReservedIsNext(active: seq<Member>, si: nat, customs: seq<Member>, ei: nat)
    requires si <= |active| && ei <= |customs|
  {
    si < |active| && (ei == |customs| || !Less(customs[ei].key, active[si].key))
  }

  method TakeReserved(active: seq<Member>, si: nat, customs: seq<Member>, ei: nat) returns (reserved: bool)
    requires si <= |active| && ei <= |customs|
    ensures reserved == ReservedIsNext(active, si, customs, ei)
  {
    if si >= |active| {
      return false;
    }
    if ei >= |customs| {
      return true;
    }
    var greater := KeyGreater(active[si].key, customs[ei].key);
    return !greater;
  }

  lemma ObjectOpens(ms: seq<Member>)
    ensures |Object(ms)| >= 1
  {
  }

  /** The merge loop: the smaller of the next reserved and the next custom key
      goes out first. */
  method EmitMerged(w: Writer, active: seq<Member>, customs: seq<Member>) returns (ok: bool)
    requires w.Valid() && w.Written() == "" && active != []
    requires forall m :: m in active || m in customs ==> (m.value.Number? ==> m.value.n <= U64_MAX)
    modifies w`pos, w.out
    ensures w.Valid() && ok == (|Object(Merge(active, customs))| <= w.out.Length)
    ensures ok ==> w.Written() == Object(Merge(active, customs))
  {
    hide Object, Merge, Less;
    ghost var all := Object(Merge(active, customs));
    ObjectOpens(Merge(active, customs));
    ok := w.WriteRaw("{");
    if !ok {
      return;
    }
    assert "" + "{" == "{";
    var si, ei, first := 0, 0, true;
    assert active[0..] == active && customs[0..] == customs;
    while si < |active| || ei < |customs|
      invariant si <= |active| && ei <= |customs| && w.Valid()
      invariant Emitting(all, w.Written(), Merge(active[si..], customs[ei..]), first)
      invariant first ==> si == 0 && ei == 0
      decreases |active| - si + |customs| - ei
    {
      ghost var left := Merge(active[si..], customs[ei..]);
      var takeReserved := TakeReserved(active, si, customs, ei);
      MergeStep(active, si, customs, ei);
      EmitNext(all, w.Written(), left, first);
      ok := EmitMember(w, if takeReserved then active[si] else customs[ei], first);
      if !ok {
        return;
      }
      if takeReserved {
        si := si + 1;
      } else {
        ei := ei + 1;
      }
      first := false;
    }
    ok := w.WriteRaw("}");
  }

  /** The head of what is left to merge, and what is left after it. */
  lemma MergeStep(active: seq<Member>, si: nat, customs: seq<Member>, ei: nat)
    requires si <= |active| && ei <= |customs| && (si < |active| || ei < |customs|)
    ensures var left := Merge(active[si..], customs[ei..]);
            var reserved := ReservedIsNext(active, si, customs, ei);
            && left != []
            && left[0] == (if reserved then active[si] else customs[ei])
            && left[1..] == (if reserved then Merge(active[si + 1..], customs[ei..]) else Merge(active[si..], customs[ei + 1..]))
  {
    assert si < |active| ==> active[si..][1..] == active[si + 1..];
    assert ei < |customs| ==> customs[ei..][1..] == customs[ei + 1..];
  }

  /** `write_access_claims_ext`: the claims are written if and only if the
      custom ones are acceptable and the object fits; and then the buffer
      holds each active reserved claim and each custom claim once, in
      ascending order of their keys. */
  method WriteClaims(c: AccessClaims, extra: seq<Member>, out: array<char>)
    returns (r: Result<nat, Refusal>, ghost ms: seq<Member>)
    requires forall m :: m in extra ==> CustomValue(m.value)
    modifies out
    ensures Acceptable(extra) ==> AreClaims(c, extra, ms)
    ensures r.Ok? <==> Acceptable(extra) && |Object(ms)| <= out.Length
    ensures r.Ok? ==> r.value <= out.Length && out[..r.value] == Object(ms)
    ensures r == Err(TooManyClaims) <==> |extra| > MAX_EXTRA_CLAIMS
    ensures r == Err(BufferTooSmall) <==> Acceptable(extra) && |Object(ms)| > out.Length
  {
    ms := [];
    if |extra| > MAX_EXTRA_CLAIMS {
      return Err(TooManyClaims), [];
    }
    var keys := CheckKeys(extra);
    if keys.Refused? {
      return Err(keys.error), [];
    }
    var sorted := SortClaims(extra);
    if sorted.None? {
      return Err(DuplicateClaimKey), [];
    }
    MergedAreClaims(c, extra, sorted.value);
    ms := Merge(Reserved(c), sorted.value);
    var w := new Writer(out);
    MembersFit(c, sorted.value);
    var ok := EmitMerged(w, Reserved(c), sorted.value);
    r := if ok then Ok(w.pos) else Err(BufferTooSmall);
  }

  /** The custom claims in the order of their keys, unless two share one. */
  method SortClaims(extra: seq<Member>) returns (r: Option<seq<Member>>)
    ensures r.Some? <==> Distinct(extra)
    ensures r.Some? ==> Ascends(r.value) && forall m :: m in r.value <==> m in extra
  {
    var ord := SortKeys(extra);
    var i := 1;
    while i < |extra|
      invariant 1 <= i && IsOrder(ord[..], |extra|) && SortedBut(extra, ord[..], |extra|, |extra|)
      invariant forall k :: 0 < k < i && k < |extra| ==> KeyAt(extra, ord[..], k - 1) != KeyAt(extra, ord[..], k)
    {
      if extra[ord[i - 1]].key == extra[ord[i]].key {
        EqualNeighbours(extra, ord[..], i);
        return None;
      }
      i := i + 1;
    }
    SortedAscends(extra, ord[..]);
    InOrderHasAll(extra, ord[..]);
    return Some(InOrder(extra, ord[..]));
  }

  lemma MembersFit(c: AccessClaims, sorted: seq<Member>)
    requires forall m :: m in sorted ==> CustomValue(m.value)
    ensures forall m :: m in Reserved(c) || m in sorted ==> (m.value.Number? ==> m.value.n <= U64_MAX)
  {
  }

  // ── Read back ──────────────────────────────────────────────────────────

  lemma ReservedIsPlain(c: AccessClaims, m: Member)
    requires m in Reserved(c)
    ensures PlainKey(m.key) && !m.value.Raw?
  {
  }

  /** The claims are what the scanner is for. */
  lemma ClaimsScan(c: AccessClaims, extra: seq<Member>, ms: seq<Member>)
    requires Acceptable(extra) && AreClaims(c, extra, ms) && forall m :: m in extra ==> CustomValue(m.value) && !m.value.Raw?
    ensures Scannable(ms) && DifferentKeys(ms)
  {
    AscendingDiffer(ms);
    forall i | 0 <= i < |ms| ensures PlainKey(ms[i].key) && !ms[i].value.Raw? {
      assert ms[i] in ms;
      if ms[i] in Reserved(c) { ReservedIsPlain(c, ms[i]); }
    }
  }

  /** With no raw custom value, both reserved numbers are read back, and every
      reserved string is read back unchanged if and only if it is safe to
      write into a record, whatever any other claim contains. */
  lemma ReservedReadBack(c: AccessClaims, extra: seq<Member>, ms: seq<Member>)
    requires Acceptable(extra) && AreClaims(c, extra, ms) && forall m :: m in extra ==> CustomValue(m.value) && !m.value.Raw?
    ensures ClaimNumber(Object(ms), "exp") == Some(c.exp) && ClaimNumber(Object(ms), "iat") == Some(c.iat)
    ensures ClaimText(Object(ms), "aud") == Some(c.aud) <==> RecordSafe(c.aud)
    ensures ClaimText(Object(ms), "iss") == Some(c.iss) <==> RecordSafe(c.iss)
    ensures ClaimText(Object(ms), "scope") == Some(c.scope) <==> RecordSafe(c.scope)
    ensures ClaimText(Object(ms), "sub") == Some(c.sub) <==> RecordSafe(c.sub)
    ensures c.jkt.Some? ==> (ClaimText(Object(ms), "jkt") == c.jkt <==> RecordSafe(c.jkt.value))
  {
    hide ClaimNumber, ClaimText, Object, Acceptable, AreClaims, Escape, RecordSafe, Lookup, IsName;
    ClaimsScan(c, extra, ms);
    Names();
    ReservedFound(c, extra, ms);
    NumberReadsBack(ms, "exp");
    NumberReadsBack(ms, "iat");
    TextReadsBack(ms, "aud");
    TextReadsBack(ms, "iss");
    TextReadsBack(ms, "scope");
    TextReadsBack(ms, "sub");
    TextReadsBack(ms, "jkt");
    SafeIsUnescaped(c.aud);
    SafeIsUnescaped(c.iss);
    SafeIsUnescaped(c.scope);
    SafeIsUnescaped(c.sub);
    if c.jkt.Some? { SafeIsUnescaped(c.jkt.value); }
  }

  lemma Names()
    ensures IsName("exp") && IsName("iat") && IsName("aud") && IsName("iss") && IsName("scope") && IsName("sub")
    ensures IsName("jkt")
  {
  }

  /** The first member that answers to each reserved name is the reserved one;
      the confirmation stands before any custom `jkt`. */
  lemma ReservedFound(c: AccessClaims, extra: seq<Member>, ms: seq<Member>)
    requires AreClaims(c, extra, ms) && forall m :: m in extra ==> CustomValue(m.value)
    ensures Lookup(ms, "aud") == Some(Text(c.aud)) && Lookup(ms, "exp") == Some(Number(c.exp))
    ensures Lookup(ms, "iat") == Some(Number(c.iat)) && Lookup(ms, "iss") == Some(Text(c.iss))
    ensures Lookup(ms, "scope") == Some(Text(c.scope)) && Lookup(ms, "sub") == Some(Text(c.sub))
    ensures c.jkt.Some? ==> Lookup(ms, "jkt") == Some(Text(c.jkt.value))
  {
    hide AreClaims, Reserved, Lookup;
    ReservedHas(c);
    ReservedAnswers(c, extra, ms, Member("aud", Text(c.aud)));
    ReservedAnswers(c, extra, ms, Member("exp", Number(c.exp)));
    ReservedAnswers(c, extra, ms, Member("iat", Number(c.iat)));
    ReservedAnswers(c, extra, ms, Member("iss", Text(c.iss)));
    ReservedAnswers(c, extra, ms, Member("scope", Text(c.scope)));
    ReservedAnswers(c, extra, ms, Member("sub", Text(c.sub)));
    if c.jkt.Some? { ConfirmationReads(c, extra, ms); }
  }

  lemma ReservedHas(c: AccessClaims)
    ensures Member("aud", Text(c.aud)) in Reserved(c) && Member("exp", Number(c.exp)) in Reserved(c)
    ensures Member("iat", Number(c.iat)) in Reserved(c) && Member("iss", Text(c.iss)) in Reserved(c)
    ensures Member("scope", Text(c.scope)) in Reserved(c) && Member("sub", Text(c.sub)) in Reserved(c)
    ensures c.jkt.Some? ==> Member("cnf", Confirmation(c.jkt.value)) in Reserved(c)
  {
    var res := Reserved(c);
    var n := |res|;
    assert res[0] == Member("aud", Text(c.aud)) && res[n - 5] == Member("exp", Number(c.exp));
    assert res[n - 4] == Member("iat", Number(c.iat)) && res[n - 3] == Member("iss", Text(c.iss));
    assert res[n - 2] == Member("scope", Text(c.scope)) && res[n - 1] == Member("sub", Text(c.sub));
    if c.jkt.Some? { assert res[1] == Member("cnf", Confirmation(c.jkt.value)); }
  }

  lemma ReservedAnswers(c: AccessClaims, extra: seq<Member>, ms: seq<Member>, m: Member)
    requires AreClaims(c, extra, ms) && m in Reserved(c) && m.key != "jkt"
    ensures Lookup(ms, m.key) == Some(m.value)
  {
    hide Reserved, Lookup, Ascends;
    assert m in ms;
    MemberAnswers(ms, m);
  }

  lemma ConfirmationReads(c: AccessClaims, extra: seq<Member>, ms: seq<Member>)
    requires AreClaims(c, extra, ms) && c.jkt.Some? && forall m :: m in extra ==> CustomValue(m.value)
    ensures Lookup(ms, "jkt") == Some(Text(c.jkt.value))
  {
    ReservedHas(c);
    OnlyConfirmation(c);
    hide Reserved, Lookup, Ascends;
    var cnf := Member("cnf", Confirmation(c.jkt.value));
    assert cnf in ms;
    forall j | 0 <= j < |ms| && ms[j].value.Confirmation? ensures ms[j].key == "cnf" { assert ms[j] in ms; }
    ConfirmationFirst(ms, cnf);
  }

  lemma OnlyConfirmation(c: AccessClaims)
    ensures forall m :: m in Reserved(c) && m.value.Confirmation? ==> m.key == "cnf" && c.jkt.Some?
    ensures forall m :: m in Reserved(c) ==> m.key != "jkt"
  {
  }

  /** Among ascending claims a key other than `jkt` answers for itself. */
  lemma MemberAnswers(ms: seq<Member>, m: Member)
    requires Ascends(ms) && m in ms && m.key != "jkt"
    ensures Lookup(ms, m.key) == Some(m.value)
  {
    AscendingDiffer(ms);
    var i :| 0 <= i < |ms| && ms[i] == m;
    LookupFirst(ms, i, m.key);
  }

  /** No claim before the confirmation answers to the name inside it. */
  lemma ConfirmationFirst(ms: seq<Member>, m: Member)
    requires Ascends(ms) && m in ms && m.key == "cnf" && m.value.Confirmation?
    requires forall j :: 0 <= j < |ms| && ms[j].value.Confirmation? ==> ms[j].key == "cnf"
    ensures Lookup(ms, "jkt") == Some(Text(m.value.jkt))
  {
    AscendingDiffer(ms);
    var i :| 0 <= i < |ms| && ms[i] == m;
    forall j | 0 <= j < i ensures !Answers(ms[j], "jkt") {
      LessIsOrder("cnf", "jkt", ms[j].key);
      LessIsOrder(ms[j].key, "cnf", "");
      assert Less("cnf", "jkt");
    }
    LookupFirst(ms, i, "jkt");
  }

  /** A token bound to no key reads as bound exactly when a custom claim of its
      own is a string named `jkt`, and then it reads as bound to that string. */
  lemma UnboundReads(c: AccessClaims, extra: seq<Member>, ms: seq<Member>)
    requires Acceptable(extra) && AreClaims(c, extra, ms) && forall m :: m in extra ==> CustomValue(m.value) && !m.value.Raw?
    requires c.jkt.None?
    ensures ClaimText(Object(ms), "jkt").Some? <==> exists s :: Member("jkt", Text(s)) in extra
    ensures forall s :: Member("jkt", Text(s)) in extra ==> ClaimText(Object(ms), "jkt") == Some(Escape(s))
  {
    hide ClaimText, Object, Acceptable, Escape, Lookup, AreClaims, Scannable;
    ClaimsScan(c, extra, ms);
    Names();
    TextReadsBack(ms, "jkt");
    UnboundLookup(c, extra, ms);
    match Lookup(ms, "jkt")
    case None =>
    case Some(v) => if v.Text? { assert Member("jkt", Text(v.s)) in extra; }
  }

  /** With no confirmation, what answers to its name is a custom claim. */
  lemma UnboundLookup(c: AccessClaims, extra: seq<Member>, ms: seq<Member>)
    requires AreClaims(c, extra, ms) && c.jkt.None? && forall m :: m in extra ==> CustomValue(m.value)
    ensures forall v :: Member("jkt", v) in extra ==> Lookup(ms, "jkt") == Some(v)
    ensures Lookup(ms, "jkt").Some? ==> Member("jkt", Lookup(ms, "jkt").value) in extra
  {
    OnlyConfirmation(c);
    hide Reserved, Lookup, Ascends;
    forall m | m in ms ensures Answers(m, "jkt") ==> m.key == "jkt" && m in extra && Answer(m, "jkt") == m.value {}
    if i :| 0 <= i < |ms| && ms[i].key == "jkt" {
      assert ms[i] in ms && ms[i] == Member("jkt", ms[i].value);
      KeyedOnce(ms, i);
    } else {
      forall j | 0 <= j < |ms| ensures !Answers(ms[j], "jkt") { assert ms[j] in ms; }
      LookupNone(ms, "jkt");
      forall v ensures Member("jkt", v) !in ms {}
    }
  }

  lemma KeyedOnce(ms: seq<Member>, i: nat)
    requires Ascends(ms) && i < |ms| && ms[i].key == "jkt"
    requires forall m :: m in ms && Answers(m, "jkt") ==> m.key == "jkt"
    ensures Lookup(ms, "jkt") == Some(ms[i].value)
    ensures forall m :: m in ms && m.key == "jkt" ==> m == ms[i]
  {
    AscendingDiffer(ms);
    hide Ascends, Lookup;
    forall j | 0 <= j < i ensures !Answers(ms[j], "jkt") { assert ms[j] in ms; }
    LookupFirst(ms, i, "jkt");
  }

  /** Such a claim is acceptable, so a caller that hands its custom claims over
      unread can issue a token without a key that reads as bound to one. */
  lemma UnboundCanReadBound(c: AccessClaims, s: string, ms: seq<Member>)
    requires c.jkt.None? && RecordSafe(s) && AreClaims(c, [Member("jkt", Text(s))], ms)
    ensures Acceptable([Member("jkt", Text(s))]) && ClaimText(Object(ms), "jkt") == Some(s)
  {
    var extra := [Member("jkt", Text(s))];
    assert Acceptable(extra);
    hide ClaimText, Object, Acceptable, AreClaims;
    UnboundReads(c, extra, ms);
    assert Member("jkt", Text(s)) in extra;
    SafeIsUnescaped(s);
  }
}
