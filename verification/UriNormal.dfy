/** The normaliser's loops, each against what it must write. */
module UriNormal {
  import opened Basics
  import opened Numerals
  import opened Uri
  import opened UriLaws
  import opened UriWriter

  // ── Percent-encoding ───────────────────────────────────────────────────

  method PctChar(s: string, i: nat, w: Out, part: Part, lower: bool) returns (next: Option<nat>)
    requires i < |s| && w.Valid()
    modifies w`len, w.buf
    ensures w.Valid()
    ensures var unit := PctUnit(s[i..], part, lower);
            if next.Some? then
              unit.Some? && next.value == i + unit.value.1 && w.Written() == old(w.Written()) + unit.value.0
            else unit.None? || old(w.len) + |unit.value.0| > w.buf.Length
  {
    var c := s[i];
    var ok;
    if c == '%' {
      if i + 2 >= |s| || HexValue(s[i + 1]).None? || HexValue(s[i + 2]).None? {
        return None;
      }
      var hi, lo := HexValue(s[i + 1]).value, HexValue(s[i + 2]).value;
      var octet := (16 * hi + lo) as char;
      if IsUnreserved(octet) {
        ok := w.Push(Fold(octet, lower));
      } else {
        ok := w.Extend(['%', HexDigit(hi), HexDigit(lo)]);
      }
      return if ok then Some(i + 3) else None;
    }
    if !Allowed(c, part) {
      return None;
    }
    ok := w.Push(Fold(c, lower));
    return if ok then Some(i + 1) else None;
  }

  /** What a loop over units has left to do. */
  ghost predicate PctSoFar(s: string, i: nat, before: string, written: string, part: Part, lower: bool) {
    && i <= |s| && before <= written && |written| - |before| <= i
    && PctNormal(s, part, lower) == Appended(Some(written[|before|..]), PctNormal(s[i..], part, lower))
  }

  lemma PctSoFarStep(s: string, i: nat, before: string, written: string, part: Part, lower: bool)
    requires PctSoFar(s, i, before, written, part, lower) && i < |s| && PctUnit(s[i..], part, lower).Some?
    ensures var (text, n) := PctUnit(s[i..], part, lower).value;
            PctSoFar(s, i + n, before, written + text, part, lower)
  {
    var (text, n) := PctUnit(s[i..], part, lower).value;
    PctStep(s[i..], part, lower);
    assert s[i..][n..] == s[i + n..];
    assert (written + text)[|before|..] == written[|before|..] + text;
    AppendedThrice2(written[|before|..], text, PctNormal(s[i + n..], part, lower));
  }

  lemma AppendedThrice2(a: string, b: string, c: Option<string>)
    ensures Appended(Some(a), Appended(Some(b), c)) == Appended(Some(a + b), c)
  {
    if c.Some? { Regroup(a, b, c.value); }
  }

  lemma PctSoFarStart(s: string, before: string, part: Part, lower: bool)
    ensures PctSoFar(s, 0, before, before, part, lower)
  {
    assert s[0..] == s && before[|before|..] == "";
    if PctNormal(s, part, lower).Some? { assert "" + PctNormal(s, part, lower).value == PctNormal(s, part, lower).value; }
  }

  lemma PctSoFarEnd(s: string, before: string, written: string, part: Part, lower: bool)
    requires PctSoFar(s, |s|, before, written, part, lower)
    ensures PctNormal(s, part, lower).Some? && written == before + PctNormal(s, part, lower).value
  {
    assert s[|s|..] == "" && written[|before|..] + "" == written[|before|..];
  }

  /** A unit that does not read, or does not fit, spoils the whole. */
  lemma PctSoFarFails(s: string, i: nat, before: string, written: string, part: Part, lower: bool, capacity: nat)
    requires PctSoFar(s, i, before, written, part, lower) && i < |s|
    requires var unit := PctUnit(s[i..], part, lower); unit.None? || |written| + |unit.value.0| > capacity
    ensures PctNormal(s, part, lower).None? || |before| + |s| > capacity
  {
    if PctUnit(s[i..], part, lower).Some? { PctSoFarStep(s, i, before, written, part, lower); }
  }

  /** A whole component through `PctChar`. */
  method WriteNormal(s: string, w: Out, part: Part, lower: bool) returns (ok: bool)
    requires w.Valid()
    modifies w`len, w.buf
    ensures w.Valid()
    ensures ok ==> PctNormal(s, part, lower).Some? && w.Written() == old(w.Written()) + PctNormal(s, part, lower).value
    ensures !ok ==> PctNormal(s, part, lower).None? || old(w.len) + |s| > w.buf.Length
  {
    ghost var before := w.Written();
    PctSoFarStart(s, before, part, lower);
    var i := 0;
    while i < |s|
      invariant w.Valid() && i <= |s| && PctSoFar(s, i, before, w.Written(), part, lower)
    {
      ghost var written := w.Written();
      var next := PctChar(s, i, w, part, lower);
      if next.None? {
        PctSoFarFails(s, i, before, written, part, lower, w.buf.Length);
        return false;
      }
      PctSoFarStep(s, i, before, written, part, lower);
      i := next.value;
    }
    PctSoFarEnd(s, before, w.Written(), part, lower);
    return true;
  }

  // ── Dot segments ───────────────────────────────────────────────────────

  /** Where the removal stands: the stack is written, the rest is to walk. */
  ghost predicate DotsSoFar(path: string, i: nat, base: nat, written: string, stack: seq<string>) {
    && i < |path| && path[0] == path[i] == '/' && NoSlash(stack)
    && base <= |written| <= base + i && written[base..] == Join(stack)
    && Walk([], Split(path[1..])) == Walk(stack, Split(path[i + 1..]))
  }

  /** The segment at `i`, and what follows it. */
  lemma SegmentAt(path: string, i: nat, seg: string)
    requires i + 1 + |seg| <= |path| && path[i] == '/' && '/' !in seg && path[i + 1..] == seg + path[i + 1 + |seg|..]
    requires i + 1 + |seg| == |path| || path[i + 1 + |seg|] == '/'
    ensures Split(path[i + 1..]) == if i + 1 + |seg| == |path| then [seg] else [seg] + Split(path[i + 2 + |seg|..])
  {
    var rest := path[i + 1 + |seg|..];
    if rest == "" {
      assert path[i + 1..] == seg;
      SplitStep(seg, "");
    } else {
      assert rest == "/" + path[i + 2 + |seg|..];
      assert path[i + 1..] == seg + "/" + path[i + 2 + |seg|..];
      SplitStep(seg, path[i + 2 + |seg|..]);
    }
  }

  /** An inner segment: the stack steps. */
  lemma InnerSegment(path: string, i: nat, base: nat, written: string, stack: seq<string>, seg: string, after: string)
    requires DotsSoFar(path, i, base, written, stack) && '/' !in seg
    requires i + 1 + |seg| < |path| && path[i + 1 + |seg|] == '/' && path[i + 1..] == seg + path[i + 1 + |seg|..]
    requires base <= |after| <= base + i + 1 + |seg| && after[base..] == Join(Step(stack, seg))
    ensures DotsSoFar(path, i + 1 + |seg|, base, after, Step(stack, seg))
  {
    SegmentAt(path, i, seg);
    var more := Split(path[i + 2 + |seg|..]);
    assert ([seg] + more)[0] == seg && ([seg] + more)[1..] == more;
  }

  /** The last one: what is written then is the path without its dots. */
  lemma LastSegment(path: string, i: nat, base: nat, written: string, stack: seq<string>, seg: string)
    requires DotsSoFar(path, i, base, written, stack) && '/' !in seg
    requires path[i + 1..] == seg
    ensures RemoveDots(path) == Join(Step(stack, seg) + (if IsDot(seg) then [""] else []))
  {
    assert path[i + 1 + |seg|..] == "" && seg + "" == seg;
    SegmentAt(path, i, seg);
  }

  lemma StepWrites(stack: seq<string>, seg: string)
    requires NoSlash(stack) && '/' !in seg
    ensures NoSlash(Step(stack, seg))
    ensures seg == ".." ==> Join(Step(stack, seg)) == UpToLastSlash(Join(stack))
    ensures !IsDot(seg) ==> Join(Step(stack, seg)) == Join(stack) + "/" + seg
    ensures Join(Step(stack, seg) + [""]) == Join(Step(stack, seg)) + "/"
  {
    JoinPop(stack);
    JoinPush(stack, seg);
    JoinPush(Step(stack, seg), "");
  }

  /** The whole state of the removal: what was written before it, and what it
      wrote, or all of it once the path is read. */
  ghost predicate DotsState(path: string, i: nat, before: string, written: string, stack: seq<string>) {
    && i <= |path| && path != "" && path[0] == '/' && before <= written
    && (i < |path| ==> DotsSoFar(path, i, |before|, written, stack))
    && (i == |path| ==> written == before + RemoveDots(path))
  }

  lemma InnerDot(path: string, i: nat, before: string, written: string, stack: seq<string>)
    requires DotsState(path, i, before, written, stack) && i < |path| && "/./" <= path[i..]
    ensures i + 2 < |path| && DotsState(path, i + 2, before, written, stack)
  {
    hide DotsSoFar, RemoveDots, UpToLastSlash, Join;
    DotInFront(path, i);
    DotsStateGives(path, i, before, written, stack);
    StepWrites(stack, ".");
    InnerSegment(path, i, |before|, written, stack, ".", written);
  }

  lemma DotInFront(path: string, i: nat)
    requires i < |path| && "/./" <= path[i..]
    ensures i + 2 < |path| && path[i + 2] == '/' && path[i + 1..] == "." + path[i + 2..]
  {
    assert path[i..][..3] == "/./" && path[i..][1] == '.' && path[i..][2] == '/';
  }

  lemma LastDot(path: string, i: nat, before: string, written: string, stack: seq<string>)
    requires DotsState(path, i, before, written, stack) && i < |path| && path[i..] == "/."
    ensures DotsState(path, |path|, before, written + ['/'], stack)
  {
    assert path[i + 1..] == ".";
    StepWrites(stack, ".");
    LastSegment(path, i, |before|, written, stack, ".");
    assert written + ['/'] == before + (written[|before|..] + "/");
  }

  lemma InnerDots(path: string, i: nat, before: string, written: string, stack: seq<string>)
    requires DotsState(path, i, before, written, stack) && i < |path| && "/../" <= path[i..]
    ensures i + 3 < |path|
    ensures DotsState(path, i + 3, before, before + UpToLastSlash(written[|before|..]), Pop(stack))
  {
    hide DotsSoFar, RemoveDots, UpToLastSlash, Join;
    DotsInFront(path, i);
    DotsStateGives(path, i, before, written, stack);
    StepWrites(stack, "..");
    UpToIsShorter(written[|before|..]);
    var after := before + UpToLastSlash(written[|before|..]);
    assert after[|before|..] == UpToLastSlash(written[|before|..]);
    InnerSegment(path, i, |before|, written, stack, "..", after);
  }

  lemma DotsInFront(path: string, i: nat)
    requires i < |path| && "/../" <= path[i..]
    ensures i + 3 < |path| && path[i + 3] == '/' && path[i + 1..] == ".." + path[i + 3..]
  {
    assert path[i..][..4] == "/../" && path[i..][1] == '.' && path[i..][2] == '.' && path[i..][3] == '/';
  }

  lemma DotsStateGives(path: string, i: nat, before: string, written: string, stack: seq<string>)
    requires DotsState(path, i, before, written, stack) && i < |path|
    ensures before <= written && path[i] == '/'
    ensures NoSlash(stack) && |before| <= |written| <= |before| + i && written[|before|..] == Join(stack)
  {
  }

  lemma {:induction false} UpToIsShorter(s: string)
    ensures |UpToLastSlash(s)| <= |s|
  {
    if s != "" && s[|s| - 1] != '/' { UpToIsShorter(s[..|s| - 1]); }
  }

  lemma LastDots(path: string, i: nat, before: string, written: string, stack: seq<string>)
    requires DotsState(path, i, before, written, stack) && i < |path| && path[i..] == "/.."
    ensures DotsState(path, |path|, before, before + UpToLastSlash(written[|before|..]) + ['/'], stack)
  {
    assert path[i + 1..] == "..";
    StepWrites(stack, "..");
    LastSegment(path, i, |before|, written, stack, "..");
    Regroup(before, UpToLastSlash(written[|before|..]), "/");
  }

  /** A segment that is no dot is moved over whole. */
  lemma WholeSegment(path: string, i: nat, before: string, written: string, stack: seq<string>, seg: string)
    requires DotsState(path, i, before, written, stack) && i < |path| && '/' !in seg
    requires i + 1 + |seg| <= |path| && path[i..i + 1 + |seg|] == "/" + seg
    requires i + 1 + |seg| == |path| || path[i + 1 + |seg|] == '/'
    requires !("/./" <= path[i..] || path[i..] == "/." || "/../" <= path[i..] || path[i..] == "/..")
    ensures DotsState(path, i + 1 + |seg|, before, written + ("/" + seg), stack + [seg])
  {
    SegmentIsNoDot(path, i, seg);
    DotsStateGives(path, i, before, written, stack);
    AfterWhole(before, written, stack, seg);
    hide RemoveDots, Join, DotsSoFar;
    var after := written + ("/" + seg);
    if i + 1 + |seg| < |path| {
      InnerSegment(path, i, |before|, written, stack, seg, after);
    } else {
      WholeLast(path, i, before, written, stack, seg, after);
    }
  }

  lemma WholeLast(path: string, i: nat, before: string, written: string, stack: seq<string>, seg: string, after: string)
    requires DotsSoFar(path, i, |before|, written, stack) && '/' !in seg && !IsDot(seg) && path[i + 1..] == seg
    requires before <= after && after[|before|..] == Join(Step(stack, seg))
    ensures after == before + RemoveDots(path)
  {
    hide DotsSoFar, Join;
    LastSegment(path, i, |before|, written, stack, seg);
    hide RemoveDots;
    assert Step(stack, seg) + [] == Step(stack, seg);
    assert after == before + after[|before|..];
  }

  /** A segment written whole is a segment pushed. */
  lemma AfterWhole(before: string, written: string, stack: seq<string>, seg: string)
    requires before <= written && written[|before|..] == Join(stack) && NoSlash(stack) && '/' !in seg && !IsDot(seg)
    ensures var after := written + ("/" + seg);
            && before <= after && |after| == |written| + 1 + |seg| && after[|before|..] == Join(Step(stack, seg))
            && Step(stack, seg) == stack + [seg]
  {
    StepWrites(stack, seg);
    hide Join;
    Regroup(Join(stack), "/", seg);
    assert (written + ("/" + seg))[|before|..] == written[|before|..] + ("/" + seg);
  }

  lemma SegmentIsNoDot(path: string, i: nat, seg: string)
    requires i + 1 + |seg| <= |path| && path[i..i + 1 + |seg|] == "/" + seg && '/' !in seg
    requires i + 1 + |seg| == |path| || path[i + 1 + |seg|] == '/'
    requires !("/./" <= path[i..] || path[i..] == "/." || "/../" <= path[i..] || path[i..] == "/..")
    ensures !IsDot(seg) && path[i + 1..] == seg + path[i + 1 + |seg|..]
  {
    assert path[i..] == ("/" + seg) + path[i + 1 + |seg|..];
  }

  /** Section 5.2.4 of RFC 3986 over an absolute path: the output's own
      segments are popped in place. */
  method RemoveDotSegments(path: string, w: Out) returns (ok: bool)
    requires w.Valid() && path != "" && path[0] == '/'
    modifies w`len, w.buf
    ensures w.Valid()
    ensures ok ==> w.Written() == old(w.Written()) + RemoveDots(path)
    ensures old(w.len) + |path| <= w.buf.Length ==> ok
  {
    ghost var before := w.Written();
    var base := w.len;
    var i := 0;
    ghost var stack: seq<string> := [];
    assert w.Written()[base..] == "";
    while i < |path|
      invariant w.Valid() && base == |before| && DotsState(path, i, before, w.Written(), stack)
    {
      var next;
      next, stack := RemoveOne(path, i, w, base, before, stack);
      if next.None? {
        return false;
      }
      i := next.value;
    }
    return true;
  }

  /** One turn of that loop. */
  method RemoveOne(path: string, i: nat, w: Out, base: nat, ghost before: string, ghost stack: seq<string>)
    returns (next: Option<nat>, ghost left: seq<string>)
    requires w.Valid() && i < |path| && base == |before| && DotsState(path, i, before, w.Written(), stack)
    modifies w`len, w.buf
    ensures w.Valid()
    ensures next.Some? ==> i < next.value && DotsState(path, next.value, before, w.Written(), left)
    ensures next.None? ==> base + |path| > w.buf.Length
  {
    var rest := path[i..];
    if "/./" <= rest || rest == "/." {
      next, left := RemoveDot(path, i, w, base, before, stack);
    } else if "/../" <= rest || rest == "/.." {
      next, left := RemoveDotDot(path, i, w, base, before, stack);
    } else {
      next, left := MoveSegment(path, i, w, base, before, stack);
    }
  }

  method RemoveDot(path: string, i: nat, w: Out, base: nat, ghost before: string, ghost stack: seq<string>)
    returns (next: Option<nat>, ghost left: seq<string>)
    requires w.Valid() && i < |path| && base == |before| && DotsState(path, i, before, w.Written(), stack)
    requires "/./" <= path[i..] || path[i..] == "/."
    modifies w`len, w.buf
    ensures w.Valid()
    ensures next.Some? ==> i < next.value && DotsState(path, next.value, before, w.Written(), left)
    ensures next.None? ==> base + |path| > w.buf.Length
  {
    if "/./" <= path[i..] {
      InnerDot(path, i, before, w.Written(), stack);
      return Some(i + 2), stack;
    }
    LastDot(path, i, before, w.Written(), stack);
    var ok := w.Push('/');
    return if ok then Some(|path|) else None, stack;
  }

  method RemoveDotDot(path: string, i: nat, w: Out, base: nat, ghost before: string, ghost stack: seq<string>)
    returns (next: Option<nat>, ghost left: seq<string>)
    requires w.Valid() && i < |path| && base == |before| && DotsState(path, i, before, w.Written(), stack)
    requires "/../" <= path[i..] || path[i..] == "/.."
    modifies w`len, w.buf
    ensures w.Valid()
    ensures next.Some? ==> i < next.value && DotsState(path, next.value, before, w.Written(), left)
    ensures next.None? ==> base + |path| > w.buf.Length
  {
    ghost var written := w.Written();
    UpToIsShorter(written[base..]);
    assert written[..base] == before;
    if "/../" <= path[i..] {
      InnerDots(path, i, before, written, stack);
      w.PopSegment(base);
      return Some(i + 3), Pop(stack);
    }
    LastDots(path, i, before, written, stack);
    w.PopSegment(base);
    var ok := w.Push('/');
    return if ok then Some(|path|) else None, stack;
  }

  method MoveSegment(path: string, i: nat, w: Out, base: nat, ghost before: string, ghost stack: seq<string>)
    returns (next: Option<nat>, ghost left: seq<string>)
    requires w.Valid() && i < |path| && base == |before| && DotsState(path, i, before, w.Written(), stack)
    requires !("/./" <= path[i..] || path[i..] == "/." || "/../" <= path[i..] || path[i..] == "/..")
    modifies w`len, w.buf
    ensures w.Valid()
    ensures next.Some? ==> i < next.value && DotsState(path, next.value, before, w.Written(), left)
    ensures next.None? ==> base + |path| > w.buf.Length
  {
    hide DotsState, Find;
    var rest := path[i..];
    DotsStateBegins(path, i, before, w.Written(), stack);
    var end := 1 + Find(rest[1..], '/');
    ghost var seg := path[i + 1..i + end];
    FirstSegment(path, i, end);
    WholeSegment(path, i, before, w.Written(), stack, seg);
    var ok := w.Extend(rest[..end]);
    return if ok then Some(i + end) else None, stack + [seg];
  }

  lemma DotsStateBegins(path: string, i: nat, before: string, written: string, stack: seq<string>)
    requires DotsState(path, i, before, written, stack) && i < |path|
    ensures path[i] == '/' && |written| <= |before| + i
  {
  }

  lemma FirstSegment(path: string, i: nat, end: nat)
    requires i < |path| && path[i] == '/' && end == 1 + Find(path[i..][1..], '/')
    ensures i + end <= |path| && '/' !in path[i + 1..i + end]
    ensures path[i..][..end] == path[i..i + end] == "/" + path[i + 1..i + end]
    ensures i + end == |path| || path[i + end] == '/'
  {
    assert path[i..][1..][..end - 1] == path[i + 1..i + end];
  }
}
