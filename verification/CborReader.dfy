/** The CBOR cursor: every method moves it within the input, and key lookup
    leaves it at the first value of the key. */
module CborReader {
  import opened Basics
  import opened Cbor

  const I64_MAX := 0x7FFF_FFFF_FFFF_FFFF

  // ── Keys ───────────────────────────────────────────────────────────────

  datatype Key = TextKey(text: Bytes) | IntKey(n: int)

  /** The key at `pos` and where it ends, read as the caller's kind of key. */
  function ReadKey(data: Bytes, pos: nat, text: bool): (r: Result<(Key, nat), Error>)
    ensures r.Ok? ==> pos < r.value.1 <= |data|
  {
    match ReadHead(data, pos)
    case Err(e) => Err(e)
    case Ok(h) =>
      if text then
        if h.major != TEXT then Err(TypeMismatch)
        else
          match Take(data, h.next, h.argument)
          case Err(e) => Err(e)
          case Ok(end) => Ok((TextKey(data[h.next..end]), end))
      else if h.major != UNSIGNED && h.major != NEGATIVE then Err(TypeMismatch)
      else if h.argument > I64_MAX then Err(Overflow)
      else Ok((IntKey(if h.major == UNSIGNED then h.argument else -1 - h.argument), h.next))
  }

  /** Over `count` entries: where the value of `key` begins, if it is there. */
  function SeekEntries(data: Bytes, pos: nat, key: Key, count: nat): (r: Result<Option<nat>, Error>)
    requires pos <= |data|
    ensures r.Ok? && r.value.Some? ==> pos <= r.value.value <= |data|
    decreases |data| - pos
  {
    if count == 0 then Ok(None)
    else
      match ReadKey(data, pos, key.TextKey?)
      case Err(e) => Err(e)
      case Ok((found, next)) =>
        if found == key then Ok(Some(next))
        else
          match Skip(data, next, 0)
          case Err(e) => Err(e)
          case Ok(after) => SeekEntries(data, after, key, count - 1)
  }

  /** `seek_text_key` and `seek_int_key`. */
  function Seek(data: Bytes, pos: nat, key: Key): (r: Result<Option<nat>, Error>)
    ensures r.Ok? && r.value.Some? ==> pos <= r.value.value <= |data|
  {
    match ReadHead(data, pos)
    case Err(e) => Err(e)
    case Ok(h) => if h.major != MAP then Err(TypeMismatch) else SeekEntries(data, h.next, key, h.argument)
  }

  // ── The cursor ─────────────────────────────────────────────────────────

  class Reader {
    const data: Bytes
    var pos: nat

    ghost predicate Valid()
      reads this
    {
      pos <= |data| <= U64_MAX
    }

    constructor (data: Bytes)
      requires |data| <= U64_MAX
      ensures Valid() && this.data == data && pos == 0
    {
      this.data := data;
      pos := 0;
    }

    method TakeBytes(n: nat) returns (r: Result<Bytes, Error>)
      requires Valid()
      modifies this`pos
      ensures Valid() && match Take(data, old(pos), n)
                         case Ok(end) => r == Ok(data[old(pos)..end]) && pos == end
                         case Err(e) => r == Err(e) && pos == old(pos)
    {
      if pos + n > U64_MAX {
        return Err(Overflow);
      }
      if pos + n > |data| {
        return Err(Truncated);
      }
      r := Ok(data[pos..pos + n]);
      pos := pos + n;
    }

    method TakeHead() returns (r: Result<Header, Error>)
      requires Valid()
      modifies this`pos
      ensures Valid() && old(pos) <= pos && r == ReadHead(data, old(pos))
      ensures r.Ok? ==> pos == r.value.next
    {
      var first :- TakeBytes(1);
      var major, info := first[0] / 32, first[0] % 32;
      if major > MAP {
        return Err(Unsupported);
      }
      if info <= 23 {
        return Ok(Header(major, info, pos));
      }
      if info > 27 {
        return Err(Unsupported);
      }
      var argument :- TakeBytes(if info == 24 then 1 else if info == 25 then 2 else if info == 26 then 4 else 8);
      return Ok(Header(major, Number(argument), pos));
    }

    /** Skip one complete item. */
    method SkipAtDepth(depth: nat) returns (r: Result<(), Error>)
      requires Valid()
      modifies this`pos
      ensures Valid() && old(pos) <= pos
      ensures match Skip(data, old(pos), depth)
              case Ok(end) => r.Ok? && pos == end
              case Err(e) => r == Err(e)
      decreases |data| - pos, 0
    {
      if depth > MAX_DEPTH {
        return Err(TooDeep);
      }
      var h :- TakeHead();
      if h.major == UNSIGNED || h.major == NEGATIVE {
        return Ok(());
      }
      if h.major == BYTES || h.major == TEXT {
        var text :- TakeBytes(h.argument);
        return Ok(());
      }
      r := SkipElements(depth + 1, if h.major == MAP then 2 * h.argument else h.argument);
    }

    /** The loop over a collection's elements. */
    method SkipElements(depth: nat, count: nat) returns (r: Result<(), Error>)
      requires Valid()
      modifies this`pos
      ensures Valid() && old(pos) <= pos
      ensures match SkipMany(data, old(pos), depth, count)
              case Ok(end) => r.Ok? && pos == end
              case Err(e) => r == Err(e)
      decreases |data| - pos, 1
    {
      var left := count;
      while left > 0
        invariant Valid() && old(pos) <= pos
        invariant SkipMany(data, old(pos), depth, count) == SkipMany(data, pos, depth, left)
        decreases left
      {
        var one :- SkipAtDepth(depth);
        left := left - 1;
      }
      return Ok(());
    }

    method TakeKey(text: bool) returns (r: Result<Key, Error>)
      requires Valid()
      modifies this`pos
      ensures Valid() && old(pos) <= pos
      ensures match ReadKey(data, old(pos), text)
              case Ok((key, end)) => r == Ok(key) && pos == end
              case Err(e) => r == Err(e)
    {
      var h :- TakeHead();
      if text {
        if h.major != TEXT {
          return Err(TypeMismatch);
        }
        var bytes :- TakeBytes(h.argument);
        return Ok(TextKey(bytes));
      }
      if h.major != UNSIGNED && h.major != NEGATIVE {
        return Err(TypeMismatch);
      }
      if h.argument > I64_MAX {
        return Err(Overflow);
      }
      return Ok(IntKey(if h.major == UNSIGNED then h.argument else -1 - h.argument));
    }

    /** Leave the cursor at the key's value; put it back when there is none. */
    method SeekKey(key: Key) returns (r: Result<bool, Error>)
      requires Valid()
      modifies this`pos
      ensures Valid()
      ensures match Seek(data, old(pos), key)
              case Ok(Some(at)) => r == Ok(true) && pos == at
              case Ok(None) => r == Ok(false) && pos == old(pos)
              case Err(e) => r == Err(e)
    {
      hide Skip, ReadKey, ReadHead;
      var start := pos;
      var h :- TakeHead();
      if h.major != MAP {
        return Err(TypeMismatch);
      }
      hide SeekEntries;
      var left := h.argument;
      while left > 0
        invariant Valid() && SeekEntries(data, h.next, key, h.argument) == SeekEntries(data, pos, key, left)
        decreases left
      {
        SeekTurn(data, pos, key, left);
        var found :- TakeKey(key.TextKey?);
        if found == key {
          return Ok(true);
        }
        var skipped :- SkipAtDepth(0);
        left := left - 1;
      }
      NoEntries(data, pos, key);
      pos := start;
      return Ok(false);
    }
  }

  // ── Lookup finds the first value ───────────────────────────────────────

  /** An item that a lookup of its kind reads as a key. */
  predicate KeyOfKind(x: Item, text: bool) {
    if text then x.Str? && x.major == TEXT else x.Int? && x.n <= I64_MAX
  }

  function KeyOf(x: Item): Key
    requires KeyOfKind(x, true) || KeyOfKind(x, false)
  {
    if x.Str? then TextKey(x.text) else IntKey(if x.major == UNSIGNED then x.n else -1 - x.n)
  }

  predicate IsKey(x: Item, key: Key) { KeyOfKind(x, key.TextKey?) && KeyOf(x) == key }

  /** A map whose keys are all of the kind looked up, and whose values are not
      too deep to pass over. */
  predicate Searchable(items: seq<Item>, text: bool) {
    && |items| % 2 == 0
    && (forall i :: 0 <= i < |items| ==> Valid(items[i]))
    && (forall i :: 0 <= i < |items| && i % 2 == 0 ==> KeyOfKind(items[i], text))
    && (forall i :: 0 <= i < |items| && i % 2 == 1 ==> Depth(items[i]) <= MAX_DEPTH)
  }

  /** The place of the first value of `key` among a map's items. */
  function FirstValue(items: seq<Item>, key: Key): Option<nat> {
    if |items| < 2 then None
    else if IsKey(items[0], key) then Some(1)
    else
      match FirstValue(items[2..], key)
      case Some(i) => Some(i + 2)
      case None => None
  }

  lemma KeyReads(data: Bytes, pos: nat, x: Item, text: bool)
    requires Valid(x) && KeyOfKind(x, text) && At(data, pos, Encode(x)) && |data| <= U64_MAX
    ensures ReadKey(data, pos, text) == Ok((KeyOf(x), pos + |Encode(x)|))
  {
    AtParts(data, pos, Head(x.major, x.Argument(), x.w), Body(x));
    HeadReads(data, pos, x.major, x.Argument(), x.w);
  }

  /** The entry in front: a key, a value, and the rest. */
  lemma EntryInFront(data: Bytes, pos: nat, items: seq<Item>)
    requires |items| >= 2 && (forall i :: 0 <= i < |items| ==> Valid(items[i])) && At(data, pos, EncodeAll(items))
    ensures At(data, pos, Encode(items[0])) && At(data, pos + |Encode(items[0])|, Encode(items[1]))
    ensures At(data, pos + |Encode(items[0])| + |Encode(items[1])|, EncodeAll(items[2..]))
  {
    ItemThenOthers(data, pos, items);
    ItemThenOthers(data, pos + |Encode(items[0])|, items[1..]);
    assert items[1..][1..] == items[2..] && items[1..][0] == items[1];
  }

  /** The loop's turn over whatever stands at `pos`. */
  lemma SeekTurn(data: Bytes, pos: nat, key: Key, count: nat)
    requires count > 0 && pos <= |data|
    ensures match ReadKey(data, pos, key.TextKey?)
            case Err(e) => SeekEntries(data, pos, key, count) == Err(e)
            case Ok((found, next)) =>
              if found == key then SeekEntries(data, pos, key, count) == Ok(Some(next))
              else
                match Skip(data, next, 0)
                case Err(e) => SeekEntries(data, pos, key, count) == Err(e)
                case Ok(after) => SeekEntries(data, pos, key, count) == SeekEntries(data, after, key, count - 1)
  {
  }

  lemma SeekUnfolds(data: Bytes, pos: nat, key: Key, count: nat, k: Key, next: nat, after: nat)
    requires count > 0 && pos <= |data| && ReadKey(data, pos, key.TextKey?) == Ok((k, next))
    requires Skip(data, next, 0) == Ok(after)
    ensures SeekEntries(data, pos, key, count)
         == if k == key then Ok(Some(next)) else SeekEntries(data, after, key, count - 1)
  {
  }

  lemma ValueSkips(data: Bytes, pos: nat, v: Item)
    requires Valid(v) && Depth(v) <= MAX_DEPTH && |data| <= U64_MAX && At(data, pos, Encode(v))
    ensures Skip(data, pos, 0) == Ok(pos + |Encode(v)|)
  {
    SkipItem(data, pos, v, 0);
  }

  /** The key and the value of one entry, as the loop reads them. */
  lemma EntryReads(data: Bytes, pos: nat, k: Item, v: Item, text: bool) returns (next: nat, after: nat)
    requires Valid(k) && Valid(v) && KeyOfKind(k, text) && Depth(v) <= MAX_DEPTH && |data| <= U64_MAX
    requires At(data, pos, Encode(k)) && At(data, pos + |Encode(k)|, Encode(v))
    ensures next == pos + |Encode(k)| && after == next + |Encode(v)|
    ensures ReadKey(data, pos, text) == Ok((KeyOf(k), next)) && Skip(data, next, 0) == Ok(after)
  {
    hide Valid, Encode, At, Depth, Skip, ReadKey, KeyOfKind;
    next := pos + |Encode(k)|;
    after := next + |Encode(v)|;
    KeyReads(data, pos, k, text);
    ValueSkips(data, next, v);
  }

  /** `count` entries the loop can pass over, one after the other from `pos`. */
  ghost predicate Ahead(data: Bytes, pos: nat, items: seq<Item>, text: bool, count: nat)
    decreases count
  {
    && pos <= |data| <= U64_MAX && |items| == 2 * count
    && (count > 0 ==>
          && Valid(items[0]) && Valid(items[1]) && KeyOfKind(items[0], text) && Depth(items[1]) <= MAX_DEPTH
          && At(data, pos, Encode(items[0])) && At(data, pos + |Encode(items[0])|, Encode(items[1]))
          && Ahead(data, pos + |Encode(items[0])| + |Encode(items[1])|, items[2..], text, count - 1))
  }

  lemma {:induction false} MapIsAhead(data: Bytes, pos: nat, items: seq<Item>, text: bool, count: nat)
    requires Searchable(items, text) && At(data, pos, EncodeAll(items)) && |data| <= U64_MAX && |items| == 2 * count
    ensures Ahead(data, pos, items, text, count)
    decreases count
  {
    if count > 0 {
      EntryInFront(data, pos, items);
      SearchableRest(items, text);
      MapIsAhead(data, pos + |Encode(items[0])| + |Encode(items[1])|, items[2..], text, count - 1);
    }
  }

  /** The loop's turn over one entry. */
  lemma FirstEntry(data: Bytes, pos: nat, k: Item, v: Item, key: Key, count: nat) returns (next: nat, after: nat)
    requires Valid(k) && Valid(v) && KeyOfKind(k, key.TextKey?) && Depth(v) <= MAX_DEPTH && |data| <= U64_MAX && count > 0
    requires At(data, pos, Encode(k)) && At(data, pos + |Encode(k)|, Encode(v))
    ensures next == pos + |Encode(k)| && after == next + |Encode(v)|
    ensures SeekEntries(data, pos, key, count)
         == if IsKey(k, key) then Ok(Some(next)) else SeekEntries(data, after, key, count - 1)
  {
    next, after := EntryReads(data, pos, k, v, key.TextKey?);
    SeekUnfolds(data, pos, key, count, KeyOf(k), next, after);
  }

  lemma NoEntries(data: Bytes, pos: nat, key: Key)
    requires pos <= |data|
    ensures SeekEntries(data, pos, key, 0) == Ok(None)
  {
  }

  /** How long the first `i` items are. */
  ghost function Before(items: seq<Item>, i: nat): nat
    requires i <= |items|
    decreases i
  {
    if i == 0 then 0 else (if Valid(items[0]) then |Encode(items[0])| else 0) + Before(items[1..], i - 1)
  }

  lemma {:induction false} BeforeIsEncoded(items: seq<Item>, i: nat)
    requires i <= |items| && forall j :: 0 <= j < |items| ==> Valid(items[j])
    ensures Before(items, i) == |EncodeAll(items[..i])|
    decreases i
  {
    if i > 0 {
      BeforeIsEncoded(items[1..], i - 1);
      assert items[..i][1..] == items[1..][..i - 1];
    }
  }

  lemma BeforeTwoMore(items: seq<Item>, i: nat)
    requires |items| >= 2 && i <= |items| - 2 && Valid(items[0]) && Valid(items[1])
    ensures Before(items, i + 2) == |Encode(items[0])| + |Encode(items[1])| + Before(items[2..], i)
    ensures Before(items, 1) == |Encode(items[0])|
  {
    assert items[1..][1..] == items[2..] && items[1..][0] == items[1];
  }

  /** The place where the first value of `key` begins, among items that begin
      at `pos`, or none. */
  ghost predicate IsFirstPlace(pos: nat, items: seq<Item>, key: Key, place: Option<nat>) {
    match FirstValue(items, key)
    case None => place.None?
    case Some(i) => i < |items| && place == Some(pos + Before(items, i))
  }

  /** The place found after the first entry is the place found. */
  lemma FirstPlaceStep(pos: nat, items: seq<Item>, key: Key, place: Option<nat>)
    requires |items| >= 2 && Valid(items[0]) && Valid(items[1])
    requires IsKey(items[0], key) ==> place == Some(pos + |Encode(items[0])|)
    requires !IsKey(items[0], key)
         ==> IsFirstPlace(pos + |Encode(items[0])| + |Encode(items[1])|, items[2..], key, place)
    ensures IsFirstPlace(pos, items, key, place)
  {
    hide Valid, Encode, IsKey, Before;
    BeforeTwoMore(items, 0);
    match FirstValue(items[2..], key)
    case None =>
    case Some(i) => if i < |items| - 2 { BeforeTwoMore(items, i); }
  }

  lemma AheadBegins(data: Bytes, pos: nat, items: seq<Item>, text: bool, count: nat)
    requires Ahead(data, pos, items, text, count)
    ensures pos <= |data| <= U64_MAX && |items| == 2 * count
    ensures count > 0 ==>
              && Valid(items[0]) && Valid(items[1]) && KeyOfKind(items[0], text) && Depth(items[1]) <= MAX_DEPTH
              && At(data, pos, Encode(items[0])) && At(data, pos + |Encode(items[0])|, Encode(items[1]))
              && Ahead(data, pos + |Encode(items[0])| + |Encode(items[1])|, items[2..], text, count - 1)
  {
  }

  lemma NothingFound(pos: nat, key: Key)
    ensures IsFirstPlace(pos, [], key, None)
  {
  }

  /** The loop stops where the first value begins. */
  lemma {:induction false} SeekEntriesLands(data: Bytes, pos: nat, items: seq<Item>, key: Key, count: nat)
    returns (place: Option<nat>)
    requires Ahead(data, pos, items, key.TextKey?, count)
    ensures pos <= |data| && SeekEntries(data, pos, key, count) == Ok(place) && IsFirstPlace(pos, items, key, place)
    decreases count
  {
    hide Ahead, IsFirstPlace, Valid, Encode, Depth, At, IsKey, KeyOfKind, SeekEntries;
    AheadBegins(data, pos, items, key.TextKey?, count);
    if count == 0 {
      NoEntries(data, pos, key);
      NothingFound(pos, key);
      place := None;
    } else {
      var next, after := FirstEntry(data, pos, items[0], items[1], key, count);
      if IsKey(items[0], key) {
        place := Some(next);
      } else {
        place := SeekEntriesLands(data, after, items[2..], key, count - 1);
      }
      FirstPlaceStep(pos, items, key, place);
    }
  }

  lemma SearchableRest(items: seq<Item>, text: bool)
    requires Searchable(items, text) && |items| >= 2
    ensures Searchable(items[2..], text)
  {
    assert forall i :: 0 <= i < |items| - 2 ==> items[2..][i] == items[i + 2];
  }

  /** Looking a key up in a map lands where its first value begins, past the
      map's head and every item before that value, whatever follows the map;
      and it reports the key absent exactly when it is. */
  lemma SeekLands(data: Bytes, pos: nat, items: seq<Item>, w: Width, key: Key)
    requires var x := List(MAP, items, w);
             Valid(x) && At(data, pos, Encode(x)) && Searchable(items, key.TextKey?) && |data| <= U64_MAX
    ensures match FirstValue(items, key)
            case Some(i) =>
              && i < |items|
              && Seek(data, pos, key) == Ok(Some(pos + 1 + Size(w) + |EncodeAll(items[..i])|))
            case None => Seek(data, pos, key) == Ok(None)
  {
    hide Valid, Encode, EncodeAll, At, Seek, SeekEntries, FirstValue, Before, Searchable, IsKey;
    var next := MapBegins(data, pos, items, w, key);
    MapItemsValid(items, w, key.TextKey?);
    MapIsAhead(data, next, items, key.TextKey?, |items| / 2);
    var place := SeekEntriesLands(data, next, items, key, |items| / 2);
    FirstValueIsFirst(items, key);
    match FirstValue(items, key)
    case None =>
    case Some(i) => BeforeIsEncoded(items, i);
  }

  lemma MapItemsValid(items: seq<Item>, w: Width, text: bool)
    requires Valid(List(MAP, items, w)) && Searchable(items, text)
    ensures |items| % 2 == 0 && forall j :: 0 <= j < |items| ==> Valid(items[j])
  {
  }

  lemma MapBegins(data: Bytes, pos: nat, items: seq<Item>, w: Width, key: Key) returns (next: nat)
    requires var x := List(MAP, items, w); Valid(x) && At(data, pos, Encode(x)) && |data| <= U64_MAX
    ensures next == pos + 1 + Size(w) && At(data, next, EncodeAll(items))
    ensures Seek(data, pos, key) == SeekEntries(data, next, key, |items| / 2)
  {
    var x := List(MAP, items, w);
    next := pos + 1 + Size(w);
    AtParts(data, pos, Head(MAP, x.Argument(), w), Body(x));
    HeadReads(data, pos, MAP, x.Argument(), w);
  }

  /** The first value is the one after the first such key. */
  lemma {:induction false} FirstValueIsFirst(items: seq<Item>, key: Key)
    requires |items| % 2 == 0
    ensures match FirstValue(items, key)
            case Some(i) =>
              && i < |items| && i % 2 == 1 && IsKey(items[i - 1], key)
              && forall j :: 0 <= j < i - 1 && j % 2 == 0 ==> !IsKey(items[j], key)
            case None => forall j :: 0 <= j < |items| && j % 2 == 0 ==> !IsKey(items[j], key)
    decreases |items|
  {
    hide IsKey;
    if items != [] && !IsKey(items[0], key) {
      FirstValueIsFirst(items[2..], key);
      forall j | 2 <= j < |items| ensures items[j] == items[2..][j - 2] {}
    }
  }
}
