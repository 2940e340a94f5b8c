/** Emitting the claims: custom keys sorted through an index table, merged with
    the reserved ones as they are written. */
module ClaimsMerge {
  import opened Basics
  import opened Json
  import opened JsonWriter
  import opened JsonScan
  import opened Claims

  // ── Sorting ────────────────────────────────────────────────────────────

  /** Each of the first numbers once, in some order. */
  ghost predicate IsOrder(ord: seq<nat>, n: nat) {
    && |ord| == n
    && (forall i :: 0 <= i < n ==> ord[i] < n)
    && (forall i, j :: 0 <= i < j < n ==> ord[i] != ord[j])
  }

  /** Different numbers below `n`, as many as there are, are all of them. */
  lemma {:induction false} OrderIsAll(ord: seq<nat>, n: nat, k: nat)
    requires IsOrder(ord, n) && k < n
    ensures k in ord
  {
    var used := set i | 0 <= i < n :: ord[i];
    UsedUp(ord, n);
    if k !in used {
      assert used <= Below(n) - {k};
      SmallerSet(used, Below(n) - {k});
    }
  }

  function Below(n: nat): (s: set<nat>)
    ensures forall x: nat :: x in s <==> x < n
    ensures |s| == n
  {
    if n == 0 then {} else Below(n - 1) + {n - 1}
  }

  lemma {:induction false} UsedUp(ord: seq<nat>, n: nat)
    requires n <= |ord| && forall i, j :: 0 <= i < j < |ord| ==> ord[i] != ord[j]
    ensures |set i | 0 <= i < n :: ord[i]| == n
  {
    if n > 0 {
      UsedUp(ord, n - 1);
      assert (set i | 0 <= i < n :: ord[i]) == (set i | 0 <= i < n - 1 :: ord[i]) + {ord[n - 1]};
    }
  }

  lemma {:induction false} SmallerSet(a: set<nat>, b: set<nat>)
    requires a <= b
    ensures |a| <= |b|
  {
    if a != {} {
      var x :| x in a;
      SmallerSet(a - {x}, b - {x});
    }
  }

  function KeyAt(extra: seq<Member>, ord: seq<nat>, i: nat): string
    requires i < |ord| && ord[i] < |extra|
  {
    extra[ord[i]].key
  }

  /** Keys up to `n` not descending, `hole` aside. */
  ghost predicate SortedBut(extra: seq<Member>, ord: seq<nat>, n: nat, hole: nat)
    requires n <= |ord| && forall i :: 0 <= i < |ord| ==> ord[i] < |extra|
  {
    forall i, j :: 0 <= i < j < n && j != hole ==> !Less(KeyAt(extra, ord, j), KeyAt(extra, ord, i))
  }

  lemma SwapKeeps(a: seq<nat>, b: seq<nat>, n: nat, j: nat)
    requires IsOrder(a, n) && 0 < j < n && |b| == n
    requires b[j] == a[j - 1] && b[j - 1] == a[j] && forall i :: 0 <= i < n && i != j && i != j - 1 ==> b[i] == a[i]
    ensures IsOrder(b, n)
  {
  }

  /** Where what stands at `i` stood before places `j - 1` and `j` were swapped. */
  function Swapped(i: nat, j: nat): nat
    requires j > 0
  {
    if i == j then j - 1 else if i == j - 1 then j else i
  }

  /** Moving the key in the hole down past a greater one. */
  lemma SwapSorts(extra: seq<Member>, a: seq<nat>, b: seq<nat>, n: nat, j: nat)
    requires IsOrder(a, |extra|) && IsOrder(b, |extra|) && 0 < j < n <= |extra|
    requires b[j] == a[j - 1] && b[j - 1] == a[j] && forall i :: 0 <= i < |extra| && i != j && i != j - 1 ==> b[i] == a[i]
    requires Less(KeyAt(extra, a, j), KeyAt(extra, a, j - 1)) && SortedBut(extra, a, n, j)
    requires forall i :: j < i < n ==> !Less(KeyAt(extra, a, i), KeyAt(extra, a, j))
    ensures SortedBut(extra, b, n, j - 1)
    ensures forall i :: j - 1 < i < n ==> !Less(KeyAt(extra, b, i), KeyAt(extra, b, j - 1))
  {
    LessIsOrder(KeyAt(extra, a, j), KeyAt(extra, a, j - 1), "");
    forall i | 0 <= i < n ensures KeyAt(extra, b, i) == KeyAt(extra, a, Swapped(i, j)) {}
    forall x, y | 0 <= x < y < n && y != j - 1 ensures !Less(KeyAt(extra, b, y), KeyAt(extra, b, x)) {
      assert KeyAt(extra, b, y) == KeyAt(extra, a, Swapped(y, j));
      assert KeyAt(extra, b, x) == KeyAt(extra, a, Swapped(x, j));
    }
  }

  lemma NoHole(extra: seq<Member>, ord: seq<nat>, n: nat, j: nat)
    requires IsOrder(ord, |extra|) && j < n <= |extra| && SortedBut(extra, ord, n, j)
    requires j > 0 ==> !Less(KeyAt(extra, ord, j), KeyAt(extra, ord, j - 1))
    ensures SortedBut(extra, ord, n, n)
  {
    forall x, y | 0 <= x < y < n ensures !Less(KeyAt(extra, ord, y), KeyAt(extra, ord, x)) {
      if y == j && x < j - 1 {
        NotLessChains(KeyAt(extra, ord, x), KeyAt(extra, ord, j - 1), KeyAt(extra, ord, j));
      }
    }
  }

  lemma NotLessChains(a: string, b: string, c: string)
    requires !Less(b, a) && !Less(c, b)
    ensures !Less(c, a)
  {
    LessIsOrder(a, b, c);
    LessIsOrder(c, a, b);
    LessIsOrder(b, c, a);
    LessIsOrder(c, b, a);
  }

  /** The key in the hole is on its way down: it is less than all above it. */
  ghost predicate Sinking(extra: seq<Member>, ord: seq<nat>, n: nat, j: nat) {
    && IsOrder(ord, |extra|) && j < n <= |extra| && SortedBut(extra, ord, n, j)
    && forall i :: j < i < n ==> !Less(KeyAt(extra, ord, i), KeyAt(extra, ord, j))
  }

  lemma SinkStep(extra: seq<Member>, a: seq<nat>, b: seq<nat>, n: nat, j: nat)
    requires Sinking(extra, a, n, j) && 0 < j && Less(extra[a[j]].key, extra[a[j - 1]].key)
    requires b == a[j - 1 := a[j]][j := a[j - 1]]
    ensures IsOrder(b, |extra|) && Sinking(extra, b, n, j - 1)
  {
    SwapKeeps(a, b, |extra|, j);
    SwapSorts(extra, a, b, n, j);
  }

  lemma SinkStarts(extra: seq<Member>, ord: seq<nat>, n: nat)
    requires IsOrder(ord, |extra|) && n < |extra| && SortedBut(extra, ord, n, n)
    ensures Sinking(extra, ord, n + 1, n)
  {
  }

  lemma SinkEnds(extra: seq<Member>, ord: seq<nat>, n: nat, j: nat)
    requires Sinking(extra, ord, n, j) && (j > 0 ==> !Less(extra[ord[j]].key, extra[ord[j - 1]].key))
    ensures SortedBut(extra, ord, n, n)
  {
    NoHole(extra, ord, n, j);
  }

  /** One key moved down to its place among those before it. */
  method SinkKey(extra: seq<Member>, ord: array<nat>, i: nat)
    requires IsOrder(ord[..], |extra|) && 0 < i < |extra| && SortedBut(extra, ord[..], i, i)
    modifies ord
    ensures IsOrder(ord[..], |extra|) && SortedBut(extra, ord[..], i + 1, i + 1)
  {
    SinkStarts(extra, ord[..], i);
    hide Sinking, SortedBut, Less;
    var j := i;
    var greater := KeyGreater(extra[ord[j - 1]].key, extra[ord[j]].key);
    while j > 0 && greater
      invariant 0 <= j <= i && IsOrder(ord[..], |extra|) && Sinking(extra, ord[..], i + 1, j)
      invariant j > 0 ==> greater == Less(extra[ord[j]].key, extra[ord[j - 1]].key)
    {
      ghost var before := ord[..];
      ord[j - 1], ord[j] := ord[j], ord[j - 1];
      assert ord[..] == before[j - 1 := before[j]][j := before[j - 1]];
      SinkStep(extra, before, ord[..], i + 1, j);
      j := j - 1;
      if j > 0 {
        greater := KeyGreater(extra[ord[j - 1]].key, extra[ord[j]].key);
      }
    }
    SinkEnds(extra, ord[..], i + 1, j);
  }

  /** The insertion sort over the index table. */
  method SortKeys(extra: seq<Member>) returns (ord: array<nat>)
    ensures fresh(ord) && IsOrder(ord[..], |extra|) && SortedBut(extra, ord[..], |extra|, |extra|)
  {
    ord := new nat[|extra|](i => i);
    var i := 1;
    while i < |extra|
      invariant 1 <= i && (i <= |extra| || |extra| == 0)
      invariant IsOrder(ord[..], |extra|) && (i <= |extra| ==> SortedBut(extra, ord[..], i, i))
    {
      SinkKey(extra, ord, i);
      i := i + 1;
    }
  }

  // ── Sorted claims ──────────────────────────────────────────────────────

  /** The custom claims in the order of the table. */
  function InOrder(extra: seq<Member>, ord: seq<nat>): (ms: seq<Member>)
    requires forall i :: 0 <= i < |ord| ==> ord[i] < |extra|
    ensures |ms| == |ord| && forall i :: 0 <= i < |ord| ==> ms[i] == extra[ord[i]]
  {
    seq(|ord|, i requires 0 <= i < |ord| => extra[ord[i]])
  }

  lemma InOrderHasAll(extra: seq<Member>, ord: seq<nat>)
    requires IsOrder(ord, |extra|)
    ensures forall m :: m in InOrder(extra, ord) <==> m in extra
  {
    forall m | m in extra ensures m in InOrder(extra, ord) {
      var k :| 0 <= k < |extra| && extra[k] == m;
      OrderIsAll(ord, |extra|, k);
      var i :| 0 <= i < |ord| && ord[i] == k;
      assert InOrder(extra, ord)[i] == m;
    }
  }

  /** No equal neighbours after the sort: then no equal keys at all. */
  lemma SortedAscends(extra: seq<Member>, ord: seq<nat>)
    requires IsOrder(ord, |extra|) && SortedBut(extra, ord, |extra|, |extra|)
    requires forall i :: 0 < i < |ord| ==> KeyAt(extra, ord, i - 1) != KeyAt(extra, ord, i)
    ensures Ascends(InOrder(extra, ord)) && Distinct(extra)
  {
    var ms := InOrder(extra, ord);
    forall i | 0 <= i < |ms| - 1 ensures Less(ms[i].key, ms[i + 1].key) {
      assert KeyAt(extra, ord, i + 1 - 1) != KeyAt(extra, ord, i + 1);
      assert !Less(KeyAt(extra, ord, i + 1), KeyAt(extra, ord, i));
      LessIsOrder(ms[i].key, ms[i + 1].key, "");
    }
    StepsAscend(ms);
    AscendingDiffer(ms);
    forall i, j | 0 <= i < j < |extra| ensures extra[i].key != extra[j].key {
      OrderIsAll(ord, |extra|, i);
      OrderIsAll(ord, |extra|, j);
      var a :| 0 <= a < |ord| && ord[a] == i;
      var b :| 0 <= b < |ord| && ord[b] == j;
      assert ms[a] == extra[i] && ms[b] == extra[j];
    }
  }

  lemma EqualNeighbours(extra: seq<Member>, ord: seq<nat>, i: nat)
    requires IsOrder(ord, |extra|) && 0 < i < |ord| && KeyAt(extra, ord, i - 1) == KeyAt(extra, ord, i)
    ensures !Distinct(extra)
  {
    if ord[i - 1] < ord[i] {
      assert extra[ord[i - 1]].key == extra[ord[i]].key;
    } else {
      assert extra[ord[i]].key == extra[ord[i - 1]].key;
    }
  }

  // ── Merging ────────────────────────────────────────────────────────────

  function Merge(a: seq<Member>, b: seq<Member>): (ms: seq<Member>)
    ensures |ms| == |a| + |b|
    decreases |a| + |b|
  {
    if a == [] then b
    else if b == [] then a
    else if Less(b[0].key, a[0].key) then [b[0]] + Merge(a, b[1..])
    else [a[0]] + Merge(a[1..], b)
  }

  lemma {:induction false} MergeHasAll(a: seq<Member>, b: seq<Member>)
    ensures forall m :: m in Merge(a, b) <==> m in a || m in b
    decreases |a| + |b|
  {
    if a != [] && b != [] {
      if Less(b[0].key, a[0].key) {
        MergeHasAll(a, b[1..]);
        assert b == [b[0]] + b[1..];
      } else {
        MergeHasAll(a[1..], b);
        assert a == [a[0]] + a[1..];
      }
    }
  }

  /** Ascending claims of different keys merge into ascending claims. */
  lemma {:induction false} MergeAscends(a: seq<Member>, b: seq<Member>)
    requires Ascends(a) && Ascends(b) && forall i, j :: 0 <= i < |a| && 0 <= j < |b| ==> a[i].key != b[j].key
    ensures Ascends(Merge(a, b))
    decreases |a| + |b|
  {
    if a != [] && b != [] {
      LessIsOrder(a[0].key, b[0].key, "");
      if Less(b[0].key, a[0].key) {
        MergeAscends(a, b[1..]);
        HeadLeads(b[0], a, b[1..]);
        FrontAscends(b[0], Merge(a, b[1..]));
      } else {
        MergeAscends(a[1..], b);
        HeadLeads(a[0], a[1..], b);
        FrontAscends(a[0], Merge(a[1..], b));
      }
    }
  }

  /** A key before both heads is before everything merged from them. */
  lemma HeadLeads(m: Member, a: seq<Member>, b: seq<Member>)
    requires Ascends(a) && Ascends(b)
    requires a != [] ==> Less(m.key, a[0].key)
    requires b != [] ==> Less(m.key, b[0].key)
    ensures forall x :: x in Merge(a, b) ==> Less(m.key, x.key)
  {
    MergeHasAll(a, b);
    forall x | x in Merge(a, b) ensures Less(m.key, x.key) {
      if x in a {
        var i :| 0 <= i < |a| && a[i] == x;
        if i > 0 { LessIsOrder(m.key, a[0].key, x.key); }
      } else {
        var i :| 0 <= i < |b| && b[i] == x;
        if i > 0 { LessIsOrder(m.key, b[0].key, x.key); }
      }
    }
  }

  lemma FrontAscends(m: Member, ms: seq<Member>)
    requires Ascends(ms) && forall x :: x in ms ==> Less(m.key, x.key)
    ensures Ascends([m] + ms)
  {
    var all := [m] + ms;
    forall i, j | 0 <= i < j < |all| ensures Less(all[i].key, all[j].key) {
      assert all[j] == ms[j - 1];
      if i > 0 { assert all[i] == ms[i - 1]; }
    }
  }

  lemma MergedAreClaims(c: AccessClaims, extra: seq<Member>, sorted: seq<Member>)
    requires Acceptable(extra) && Ascends(sorted) && forall m :: m in sorted <==> m in extra
    ensures AreClaims(c, extra, Merge(Reserved(c), sorted))
  {
    ReservedAscend(c);
    forall i, j | 0 <= i < |Reserved(c)| && 0 <= j < |sorted| ensures Reserved(c)[i].key != sorted[j].key {
      assert sorted[j] in extra;
    }
    MergeAscends(Reserved(c), sorted);
    MergeHasAll(Reserved(c), sorted);
  }
}
