/** The CBOR subset of WebAuthn structures (section 3 of RFC 8949): what an
    item is, how it is written, and what the reader makes of any bytes. */
module Cbor {
  import opened Basics

  type Bytes = seq<Byte>

  const MAX_DEPTH := 16

  const UNSIGNED := 0
  const NEGATIVE := 1
  const BYTES := 2
  const TEXT := 3
  const ARRAY := 4
  const MAP := 5

  datatype Error = Truncated | Unsupported | TypeMismatch | Overflow | TooDeep

  // ── Items ──────────────────────────────────────────────────────────────

  /** How wide an argument is written: a reader takes any width that fits. */
  datatype Width = InHead | One | Two | Four | Eight

  function Size(w: Width): nat {
    match w
    case InHead => 0
    case One => 1
    case Two => 2
    case Four => 4
    case Eight => 8
  }

  predicate Fits(n: nat, w: Width) { if w == InHead then n <= 23 else n < Pow256(Size(w)) }

  /** An item with its own width. A map lists its keys and values in turn. */
  datatype Item =
    | Int(major: nat, n: nat, w: Width)
    | Str(major: nat, text: Bytes, w: Width)
    | List(major: nat, items: seq<Item>, w: Width)
  {
    function Argument(): nat {
      match this
      case Int(_, n, _) => n
      case Str(_, text, _) => |text|
      case List(major, items, _) => if major == MAP then |items| / 2 else |items|
    }
  }

  predicate Valid(x: Item) {
    && Fits(x.Argument(), x.w)
    && match x
       case Int(major, _, _) => major == UNSIGNED || major == NEGATIVE
       case Str(major, _, _) => major == BYTES || major == TEXT
       case List(major, items, _) =>
         && (major == ARRAY || (major == MAP && |items| % 2 == 0))
         && forall i :: 0 <= i < |items| ==> Valid(items[i])
  }

  function BigEndian(n: nat, size: nat): (b: Bytes)
    ensures |b| == size
  {
    if size == 0 then [] else BigEndian(n / 256, size - 1) + [n % 256]
  }

  function InfoOf(n: nat, w: Width): nat {
    match w
    case InHead => n
    case One => 24
    case Two => 25
    case Four => 26
    case Eight => 27
  }

  function Head(major: nat, n: nat, w: Width): (b: Bytes)
    requires major <= MAP && Fits(n, w)
    ensures |b| == 1 + Size(w)
  {
    [32 * major + InfoOf(n, w)] + BigEndian(n, Size(w))
  }

  function Encode(x: Item): (b: Bytes)
    requires Valid(x)
    ensures |b| > 0
    decreases x, 1
  {
    Head(x.major, x.Argument(), x.w) + Body(x)
  }

  /** What follows an item's head. */
  function Body(x: Item): Bytes
    requires Valid(x)
    decreases x, 0
  {
    match x
    case Int(_, _, _) => []
    case Str(_, text, _) => text
    case List(_, items, _) => EncodeAll(items)
  }

  function EncodeAll(xs: seq<Item>): Bytes
    requires forall i :: 0 <= i < |xs| ==> Valid(xs[i])
    decreases xs, 0
  {
    if xs == [] then [] else Encode(xs[0]) + EncodeAll(xs[1..])
  }

  /** How many levels lie inside an item. */
  function Depth(x: Item): nat
    decreases x, 1
  {
    match x
    case List(_, items, _) => if items == [] then 0 else 1 + DepthAll(items)
    case _ => 0
  }

  function DepthAll(xs: seq<Item>): nat
    decreases xs, 0
  {
    if xs == [] then 0
    else
      var first, rest := Depth(xs[0]), DepthAll(xs[1..]);
      if first < rest then rest else first
  }

  // ── Reading ────────────────────────────────────────────────────────────

  function Number(b: Bytes): nat {
    if b == [] then 0 else 256 * Number(b[..|b| - 1]) + b[|b| - 1]
  }

  /** `take`: where `n` bytes from `pos` end. */
  function Take(data: Bytes, pos: nat, n: nat): (r: Result<nat, Error>)
    ensures r.Ok? ==> r.value == pos + n <= |data|
  {
    if pos + n > U64_MAX then Err(Overflow) else if pos + n > |data| then Err(Truncated) else Ok(pos + n)
  }

  datatype Header = Header(major: nat, argument: nat, next: nat)

  /** `header`: an item's major type, its argument, and where it goes on. */
  function ReadHead(data: Bytes, pos: nat): (r: Result<Header, Error>)
    ensures r.Ok? ==> r.value.major <= MAP && pos < r.value.next <= |data|
  {
    match Take(data, pos, 1)
    case Err(e) => Err(e)
    case Ok(at) =>
      var first := data[pos];
      var info := first % 32;
      if first / 32 > MAP then Err(Unsupported)
      else if info <= 23 then Ok(Header(first / 32, info, at))
      else if info > 27 then Err(Unsupported)
      else
        var size := if info == 24 then 1 else if info == 25 then 2 else if info == 26 then 4 else 8;
        match Take(data, at, size)
        case Err(e) => Err(e)
        case Ok(end) => Ok(Header(first / 32, Number(data[at..end]), end))
  }

  /** `skip_at_depth`: where the item at `pos` ends. However many elements a
      header claims, each takes a byte at least. */
  function Skip(data: Bytes, pos: nat, depth: nat): (r: Result<nat, Error>)
    ensures r.Ok? ==> pos < r.value <= |data|
    decreases if pos <= |data| then |data| - pos else 0, 0
  {
    if depth > MAX_DEPTH then Err(TooDeep)
    else
      match ReadHead(data, pos)
      case Err(e) => Err(e)
      case Ok(h) =>
        if h.major == UNSIGNED || h.major == NEGATIVE then Ok(h.next)
        else if h.major == BYTES || h.major == TEXT then Take(data, h.next, h.argument)
        else SkipMany(data, h.next, depth + 1, if h.major == MAP then 2 * h.argument else h.argument)
  }

  /** `count` items one after the other. */
  function SkipMany(data: Bytes, pos: nat, depth: nat, count: nat): (r: Result<nat, Error>)
    requires pos <= |data|
    ensures r.Ok? ==> pos <= r.value <= |data|
    decreases |data| - pos, 1
  {
    if count == 0 then Ok(pos)
    else
      match Skip(data, pos, depth)
      case Err(e) => Err(e)
      case Ok(next) => SkipMany(data, next, depth, count - 1)
  }

  // ── Heads are read back ────────────────────────────────────────────────

  lemma {:induction false} NumberOfBigEndian(n: nat, size: nat)
    requires n < Pow256(size)
    ensures Number(BigEndian(n, size)) == n
  {
    if size > 0 {
      var b := BigEndian(n, size);
      assert b[..size - 1] == BigEndian(n / 256, size - 1);
      NumberOfBigEndian(n / 256, size - 1);
    }
  }

  lemma FirstByte(major: nat, n: nat, w: Width)
    requires major <= MAP && Fits(n, w)
    ensures var first := 32 * major + InfoOf(n, w);
            first / 32 == major && first % 32 == InfoOf(n, w) && (w == InHead <==> InfoOf(n, w) <= 23)
  {
    assert InfoOf(n, w) < 32;
  }

  /** A head in its place reads as what it was written for. */
  lemma HeadReads(data: Bytes, pos: nat, major: nat, n: nat, w: Width)
    requires major <= MAP && Fits(n, w) && |data| <= U64_MAX
    requires pos + 1 + Size(w) <= |data| && data[pos..pos + 1 + Size(w)] == Head(major, n, w)
    ensures ReadHead(data, pos) == Ok(Header(major, n, pos + 1 + Size(w)))
  {
    FirstByte(major, n, w);
    var h := Head(major, n, w);
    assert data[pos] == data[pos..pos + 1 + Size(w)][0] == h[0] == 32 * major + InfoOf(n, w);
    if w != InHead {
      assert data[pos + 1..pos + 1 + Size(w)] == data[pos..pos + 1 + Size(w)][1..] == BigEndian(n, Size(w));
      NumberOfBigEndian(n, Size(w));
    }
    hide Head, BigEndian, Number, Fits;
  }

  // ── Skipping lands at the end ──────────────────────────────────────────

  /** The bytes of an item stand at `pos`. */
  ghost predicate At(data: Bytes, pos: nat, b: Bytes) {
    pos + |b| <= |data| && data[pos..pos + |b|] == b
  }

  lemma AtParts(data: Bytes, pos: nat, a: Bytes, b: Bytes)
    ensures At(data, pos, a + b) <==> At(data, pos, a) && At(data, pos + |a|, b)
  {
    if At(data, pos, a + b) {
      assert data[pos..pos + |a|] == data[pos..pos + |a + b|][..|a|] == a;
      assert data[pos + |a|..pos + |a| + |b|] == data[pos..pos + |a + b|][|a|..] == b;
    }
    if At(data, pos, a) && At(data, pos + |a|, b) {
      assert data[pos..pos + |a + b|] == data[pos..pos + |a|] + data[pos + |a|..pos + |a| + |b|];
    }
  }

  /** What skipping does once the head is read. */
  function SkipBody(data: Bytes, h: Header, depth: nat): Result<nat, Error>
    requires h.next <= |data|
  {
    if h.major == UNSIGNED || h.major == NEGATIVE then Ok(h.next)
    else if h.major == BYTES || h.major == TEXT then Take(data, h.next, h.argument)
    else SkipMany(data, h.next, depth + 1, if h.major == MAP then 2 * h.argument else h.argument)
  }

  /** An item in its place: its head is read, and its body follows. */
  lemma ItemBegins(data: Bytes, pos: nat, x: Item, depth: nat)
    requires Valid(x) && At(data, pos, Encode(x)) && |data| <= U64_MAX && depth <= MAX_DEPTH
    ensures var next := pos + 1 + Size(x.w);
            && At(data, next, Body(x)) && |Encode(x)| == 1 + Size(x.w) + |Body(x)|
            && Skip(data, pos, depth) == SkipBody(data, Header(x.major, x.Argument(), next), depth)
  {
    AtParts(data, pos, Head(x.major, x.Argument(), x.w), Body(x));
    HeadReads(data, pos, x.major, x.Argument(), x.w);
  }

  /** Whatever follows an item, skipping it stops exactly at its end, unless
      it is nested too deep. */
  lemma {:induction false} SkipItem(data: Bytes, pos: nat, x: Item, depth: nat)
    requires Valid(x) && At(data, pos, Encode(x)) && |data| <= U64_MAX
    ensures Skip(data, pos, depth) == if depth + Depth(x) <= MAX_DEPTH then Ok(pos + |Encode(x)|) else Err(TooDeep)
    decreases x, 1
  {
    hide Valid, Encode, SkipBody;
    if depth <= MAX_DEPTH {
      ItemBegins(data, pos, x, depth);
      if x.List? {
        SkipList(data, pos + 1 + Size(x.w), x, depth);
      } else {
        SkipLeaf(data, pos + 1 + Size(x.w), x, depth);
      }
    }
  }

  lemma {:induction false} SkipList(data: Bytes, next: nat, x: Item, depth: nat)
    requires Valid(x) && x.List? && At(data, next, EncodeAll(x.items)) && |data| <= U64_MAX && depth <= MAX_DEPTH
    ensures SkipBody(data, Header(x.major, x.Argument(), next), depth)
         == if depth + Depth(x) <= MAX_DEPTH then Ok(next + |EncodeAll(x.items)|) else Err(TooDeep)
    decreases x, 0
  {
    assert |x.items| == if x.major == MAP then 2 * x.Argument() else x.Argument();
    SkipItems(data, next, x.items, depth + 1);
  }

  lemma SkipLeaf(data: Bytes, next: nat, x: Item, depth: nat)
    requires Valid(x) && !x.List? && At(data, next, Body(x)) && |data| <= U64_MAX
    ensures SkipBody(data, Header(x.major, x.Argument(), next), depth) == Ok(next + |Body(x)|)
  {
  }

  /** One item, then the others. */
  lemma ItemThenOthers(data: Bytes, pos: nat, xs: seq<Item>)
    requires xs != [] && (forall i :: 0 <= i < |xs| ==> Valid(xs[i])) && At(data, pos, EncodeAll(xs))
    ensures At(data, pos, Encode(xs[0])) && At(data, pos + |Encode(xs[0])|, EncodeAll(xs[1..]))
    ensures |EncodeAll(xs)| == |Encode(xs[0])| + |EncodeAll(xs[1..])|
  {
    AtParts(data, pos, Encode(xs[0]), EncodeAll(xs[1..]));
  }

  lemma {:induction false} SkipItems(data: Bytes, pos: nat, xs: seq<Item>, depth: nat)
    requires forall i :: 0 <= i < |xs| ==> Valid(xs[i])
    requires At(data, pos, EncodeAll(xs)) && |data| <= U64_MAX
    ensures SkipMany(data, pos, depth, |xs|)
         == if xs == [] || depth + DepthAll(xs) <= MAX_DEPTH then Ok(pos + |EncodeAll(xs)|) else Err(TooDeep)
    decreases xs, 0
  {
    hide Valid, Encode, EncodeAll, Depth, Skip;
    if xs == [] {
      NoItems(data, pos, depth);
    } else {
      ItemThenOthers(data, pos, xs);
      SkipItem(data, pos, xs[0], depth);
      if depth + Depth(xs[0]) <= MAX_DEPTH {
        SkipItems(data, pos + |Encode(xs[0])|, xs[1..], depth);
      }
    }
  }

  // ── And nothing else is skipped ────────────────────────────────────────

  /** The width a head was written in. */
  function WidthAt(first: Byte): Width {
    var info := first % 32;
    if info <= 23 then InHead else if info == 24 then One else if info == 25 then Two else if info == 26 then Four else Eight
  }

  lemma {:induction false} BigEndianOfNumber(b: Bytes)
    ensures BigEndian(Number(b), |b|) == b && Number(b) < Pow256(|b|)
  {
    if b != [] { BigEndianOfNumber(b[..|b| - 1]); }
  }

  /** A head that reads is one that could be written. */
  lemma ReadIsHead(data: Bytes, pos: nat)
    requires ReadHead(data, pos).Ok?
    ensures var h := ReadHead(data, pos).value;
            var w := WidthAt(data[pos]);
            && Fits(h.argument, w) && h.next == pos + 1 + Size(w)
            && At(data, pos, Head(h.major, h.argument, w))
  {
    var h := ReadHead(data, pos).value;
    var w := WidthAt(data[pos]);
    BigEndianOfNumber(data[pos + 1..h.next]);
    assert data[pos..h.next] == [data[pos]] + data[pos + 1..h.next];
    assert data[pos] == 32 * (data[pos] / 32) + data[pos] % 32;
    if w != InHead { assert |data[pos + 1..h.next]| == Size(w); }
  }

  /** What was skipped is an item, within the depth allowed. */
  lemma {:induction false} SkippedIsItem(data: Bytes, pos: nat, depth: nat) returns (x: Item)
    requires Skip(data, pos, depth).Ok?
    ensures Valid(x) && At(data, pos, Encode(x)) && Skip(data, pos, depth) == Ok(pos + |Encode(x)|)
    ensures depth + Depth(x) <= MAX_DEPTH
    decreases if pos <= |data| then |data| - pos else 0, 0
  {
    hide Valid, Encode, EncodeAll, Depth, DepthAll, At, Skip, SkipMany, ReadHead, Take;
    SkipIsBody(data, pos, depth);
    var h := ReadHead(data, pos).value;
    if h.major == UNSIGNED || h.major == NEGATIVE {
      x := IntAt(data, pos, h);
    } else if h.major == BYTES || h.major == TEXT {
      x := StrAt(data, pos, h);
    } else {
      var items := SkippedAreItems(data, h.next, depth + 1, if h.major == MAP then 2 * h.argument else h.argument);
      x := ListAt(data, pos, h, items);
    }
  }

  lemma SkipIsBody(data: Bytes, pos: nat, depth: nat)
    requires Skip(data, pos, depth).Ok?
    ensures depth <= MAX_DEPTH && ReadHead(data, pos).Ok?
    ensures Skip(data, pos, depth) == SkipBody(data, ReadHead(data, pos).value, depth)
  {
  }

  lemma StrAt(data: Bytes, pos: nat, h: Header) returns (x: Item)
    requires ReadHead(data, pos) == Ok(h) && (h.major == BYTES || h.major == TEXT) && Take(data, h.next, h.argument).Ok?
    ensures Valid(x) && At(data, pos, Encode(x)) && pos + |Encode(x)| == h.next + h.argument && Depth(x) == 0
    ensures Take(data, h.next, h.argument) == Ok(h.next + h.argument)
  {
    ReadIsHead(data, pos);
    var text := data[h.next..h.next + h.argument];
    x := Str(h.major, text, WidthAt(data[pos]));
    AtParts(data, pos, Head(h.major, h.argument, WidthAt(data[pos])), text);
  }

  lemma ListAt(data: Bytes, pos: nat, h: Header, items: seq<Item>) returns (x: Item)
    requires ReadHead(data, pos) == Ok(h) && (h.major == ARRAY || h.major == MAP)
    requires |items| == if h.major == MAP then 2 * h.argument else h.argument
    requires (forall i :: 0 <= i < |items| ==> Valid(items[i])) && At(data, h.next, EncodeAll(items))
    ensures Valid(x) && At(data, pos, Encode(x)) && pos + |Encode(x)| == h.next + |EncodeAll(items)|
    ensures Depth(x) == if items == [] then 0 else 1 + DepthAll(items)
  {
    ReadIsHead(data, pos);
    x := List(h.major, items, WidthAt(data[pos]));
    AtParts(data, pos, Head(h.major, h.argument, WidthAt(data[pos])), EncodeAll(items));
  }

  lemma IntAt(data: Bytes, pos: nat, h: Header) returns (x: Item)
    requires ReadHead(data, pos) == Ok(h) && (h.major == UNSIGNED || h.major == NEGATIVE)
    ensures Valid(x) && At(data, pos, Encode(x)) && pos + |Encode(x)| == h.next && Depth(x) == 0
  {
    ReadIsHead(data, pos);
    x := Int(h.major, h.argument, WidthAt(data[pos]));
    assert Head(x.major, x.n, x.w) + [] == Head(x.major, x.n, x.w);
  }

  lemma {:induction false} SkippedAreItems(data: Bytes, pos: nat, depth: nat, count: nat) returns (xs: seq<Item>)
    requires pos <= |data| && SkipMany(data, pos, depth, count).Ok?
    ensures |xs| == count && (forall i :: 0 <= i < |xs| ==> Valid(xs[i])) && At(data, pos, EncodeAll(xs))
    ensures SkipMany(data, pos, depth, count) == Ok(pos + |EncodeAll(xs)|)
    ensures xs != [] ==> depth + DepthAll(xs) <= MAX_DEPTH
    decreases |data| - pos, 1
  {
    hide Valid, Encode, EncodeAll, Depth, DepthAll, At, Skip, SkipMany;
    NoItems(data, pos, depth);
    if count == 0 {
      xs := [];
    } else {
      ManyIsOneMore(data, pos, depth, count);
      var first := SkippedIsItem(data, pos, depth);
      var rest := SkippedAreItems(data, pos + |Encode(first)|, depth, count - 1);
      xs := [first] + rest;
      OneInFront(first, rest);
      AtParts(data, pos, Encode(first), EncodeAll(rest));
    }
  }

  lemma NoItems(data: Bytes, pos: nat, depth: nat)
    requires pos <= |data|
    ensures EncodeAll([]) == [] && At(data, pos, EncodeAll([])) && SkipMany(data, pos, depth, 0) == Ok(pos)
    ensures DepthAll([]) == 0
  {
  }

  lemma ManyIsOneMore(data: Bytes, pos: nat, depth: nat, count: nat)
    requires pos <= |data| && count > 0 && SkipMany(data, pos, depth, count).Ok?
    ensures Skip(data, pos, depth).Ok? && depth <= MAX_DEPTH
    ensures SkipMany(data, pos, depth, count) == SkipMany(data, Skip(data, pos, depth).value, depth, count - 1)
  {
  }

  lemma OneInFront(first: Item, rest: seq<Item>)
    requires Valid(first) && forall i :: 0 <= i < |rest| ==> Valid(rest[i])
    ensures forall i :: 0 <= i < |[first] + rest| ==> Valid(([first] + rest)[i])
    ensures EncodeAll([first] + rest) == Encode(first) + EncodeAll(rest)
    ensures DepthAll([first] + rest) == if Depth(first) < DepthAll(rest) then DepthAll(rest) else Depth(first)
  {
    assert ([first] + rest)[1..] == rest;
  }

  /** Skipping ends at `end` if and only if an item that is not too deep lies
      there and ends there. */
  lemma SkipIsItem(data: Bytes, pos: nat, depth: nat, end: nat)
    requires |data| <= U64_MAX
    ensures Skip(data, pos, depth) == Ok(end) <==>
            exists x :: Valid(x) && At(data, pos, Encode(x)) && end == pos + |Encode(x)| && depth + Depth(x) <= MAX_DEPTH
  {
    if Skip(data, pos, depth) == Ok(end) {
      var x := SkippedIsItem(data, pos, depth);
    }
    forall x | Valid(x) && At(data, pos, Encode(x)) && end == pos + |Encode(x)| && depth + Depth(x) <= MAX_DEPTH
      ensures Skip(data, pos, depth) == Ok(end)
    {
      SkipItem(data, pos, x, depth);
    }
  }
}
