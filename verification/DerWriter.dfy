/** Writing DER in one buffer: a constructed element reserves the widest
    header, writes its children, then moves them down over what it did not
    need and patches the length in. */
module DerWriter {
  import opened Basics
  import opened Der

  /** The most buffer a tree needs while it is being written. */
  function Room(t: Tree): (n: nat)
    decreases t, 1
  {
    match t
    case Primitive(_, _) => |Encode(t)|
    case Constructed(_, ts) => 4 + RoomAll(ts)
  }

  function RoomAll(ts: seq<Tree>): nat
    decreases ts
  {
    if ts == [] then 0
    else
      var first, rest := Room(ts[0]), |Encode(ts[0])| + RoomAll(ts[1..]);
      if first < rest then rest else first
  }

  /** A tree never needs less than it is long. */
  lemma {:induction false} RoomIsEnough(t: Tree)
    ensures |Encode(t)| <= Room(t)
    decreases t, 1
  {
    if t.Constructed? { RoomAllIsEnough(t.children); }
  }

  lemma {:induction false} RoomAllIsEnough(ts: seq<Tree>)
    ensures |EncodeAll(ts)| <= RoomAll(ts)
    decreases ts
  {
    if ts != [] {
      RoomIsEnough(ts[0]);
      RoomAllIsEnough(ts[1..]);
    }
  }

  /** A primitive element's three parts, after what is written already. */
  lemma PrimitiveIs(tag: Byte, contents: Bytes)
    requires |contents| <= MAX_LEN
    ensures Encode(Primitive(tag, contents)) == [tag] + Length(|contents|) + contents
  {
  }

  lemma Appended(before: Bytes, a: Bytes, b: Bytes, c: Bytes)
    ensures before + a + b + c == before + (a + b + c)
  {
  }

  class Writer {
    const out: array<Byte>
    var at: nat

    ghost predicate Valid()
      reads this
    {
      at <= out.Length
    }

    ghost function Written(): Bytes
      reads this, out
      requires Valid()
    {
      out[..at]
    }

    constructor (capacity: nat)
      ensures Valid() && fresh(out) && out.Length == capacity && Written() == []
    {
      out := new Byte[capacity](_ => 0);
      at := 0;
    }

    method Put(bytes: Bytes) returns (ok: bool)
      requires Valid()
      modifies this`at, out
      ensures Valid() && ok == (old(at) + |bytes| <= out.Length)
      ensures Written() == if ok then old(Written()) + bytes else old(Written())
    {
      if at + |bytes| > out.Length {
        return false;
      }
      for i := 0 to |bytes|
        invariant at == old(at) && forall k :: at <= k < at + i ==> out[k] == bytes[k - at]
        invariant forall k :: 0 <= k < at ==> out[k] == old(out[k])
      {
        out[at + i] := bytes[i];
      }
      at := at + |bytes|;
      return true;
    }

    method WriteLength(n: nat) returns (ok: bool)
      requires Valid()
      modifies this`at, out
      ensures Valid() && ok == (n <= MAX_LEN && old(at) + |Length(n)| <= out.Length)
      ensures Written() == if ok then old(Written()) + Length(n) else old(Written())
    {
      if n > MAX_LEN {
        return false;
      }
      ok := Put(Length(n));
    }

    method WritePrimitive(tag: Byte, contents: Bytes) returns (ok: bool)
      requires Valid()
      modifies this`at, out
      ensures Valid() && old(Written()) <= Written()
      ensures ok == (|contents| <= MAX_LEN && old(at) + |Encode(Primitive(tag, contents))| <= out.Length)
      ensures ok ==> Written() == old(Written()) + Encode(Primitive(tag, contents))
    {
      hide Encode, Length;
      if |contents| <= MAX_LEN { PrimitiveIs(tag, contents); Appended(Written(), [tag], Length(|contents|), contents); }
      ghost var before := Written();
      ok := Put([tag]);
      if ok { ok := WriteLength(|contents|); }
      if ok { ok := Put(contents); }
    }

    /** Move the contents at `from` down to `to`, a byte at a time. */
    method ShiftDown(from: nat, to: nat)
      requires Valid() && to <= from <= at
      modifies this`at, out
      ensures Valid() && at == old(at) - (from - to)
      ensures Written() == old(Written())[..to] + old(Written())[from..]
    {
      var len := at - from;
      ghost var before := out[..];
      for offset := 0 to len
        invariant at == old(at) && forall k :: 0 <= k < to ==> out[k] == before[k]
        invariant forall k :: to <= k < to + offset ==> out[k] == before[k + (from - to)]
        invariant forall k :: from + offset <= k < out.Length ==> out[k] == before[k]
      {
        out[to + offset] := out[from + offset];
      }
      at := at - (from - to);
    }

    /** Overwrite what stands at `place`. */
    method Patch(place: nat, bytes: Bytes)
      requires Valid() && place + |bytes| <= at
      modifies out
      ensures Valid() && Written() == old(Written())[..place] + bytes + old(Written())[place + |bytes|..]
    {
      for i := 0 to |bytes|
        invariant forall k :: place <= k < place + i ==> out[k] == bytes[k - place]
        invariant forall k :: 0 <= k < place || place + i <= k < out.Length ==> out[k] == old(out[k])
      {
        out[place + i] := bytes[i];
      }
    }

    /** Narrow a three-byte header to what its contents need. */
    method CloseHeader(headerAt: nat, ghost before: Bytes, ghost contents: Bytes) returns (ok: bool)
      requires Valid() && headerAt == |before| && headerAt + 3 <= at
      requires Written() == before + [0, 0, 0] + contents
      modifies this`at, out
      ensures Valid() && ok == (|contents| <= MAX_LEN)
      ensures ok ==> Written() == before + Length(|contents|) + contents
      ensures !ok ==> Written() == old(Written())
    {
      var contentsAt := headerAt + 3;
      var n := at - contentsAt;
      if n > MAX_LEN {
        return false;
      }
      var header := Length(n);
      ShiftDown(contentsAt, headerAt + |header|);
      NarrowedHeader(before, contents, |header|);
      Patch(headerAt, header);
      PatchedHeader(before, contents, header);
      return true;
    }

    /** A non-negative INTEGER from big-endian bytes. */
    method WriteInteger(value: Bytes) returns (ok: bool)
      requires Valid()
      modifies this`at, out
      ensures Valid()
      ensures ok <==> value != [] && Encodable(IntegerTree(value)) && old(at) + |Encode(IntegerTree(value))| <= out.Length
      ensures ok ==> Written() == old(Written()) + Encode(IntegerTree(value))
    {
      var bytes := value;
      while |bytes| > 1 && bytes[0] == 0
        invariant value != [] ==> bytes != [] && Trimmed(bytes) == Trimmed(value)
        invariant value == [] ==> bytes == []
        decreases |bytes|
      {
        bytes := bytes[1..];
      }
      if bytes == [] {
        return false;
      }
      var contents := if bytes[0] >= 0x80 then [0] + bytes else bytes;
      ok := WritePrimitive(TAG_INTEGER, contents);
    }

    /** A BIT STRING without unused bits. */
    method WriteBitString(contents: Bytes) returns (ok: bool)
      requires Valid()
      modifies this`at, out
      ensures Valid()
      ensures ok <==> Encodable(BitStringTree(contents)) && old(at) + |Encode(BitStringTree(contents))| <= out.Length
      ensures ok ==> Written() == old(Written()) + Encode(BitStringTree(contents))
    {
      ok := WritePrimitive(TAG_BIT_STRING, [0] + contents);
    }

    /** A tree, its constructed elements through reserved headers. It is
        written if and only if its lengths can be and the buffer has room for
        the widest moment. */
    method WriteTree(t: Tree) returns (ok: bool)
      requires Valid()
      modifies this`at, out
      ensures Valid() && old(Written()) <= Written()
      ensures ok <==> Encodable(t) && old(at) + Room(t) <= out.Length
      ensures ok ==> Written() == old(Written()) + Encode(t)
      decreases t, 1
    {
      match t {
        case Primitive(tag, contents) =>
          ok := WritePrimitive(tag, contents);
        case Constructed(tag, children) =>
          ghost var start := Written();
          ok := Put([tag]);
          if !ok {
            return;
          }
          var headerAt := at;
          ghost var before := Written();
          ok := Put([0, 0, 0]);
          if !ok {
            return;
          }
          ok := WriteAll(children);
          if !ok {
            return;
          }
          ok := CloseHeader(headerAt, before, EncodeAll(children));
          assert start + [tag] == before;
          if ok { ElementIs(start, tag, EncodeAll(children)); }
      }
    }

    method WriteAll(ts: seq<Tree>) returns (ok: bool)
      requires Valid()
      modifies this`at, out
      ensures Valid() && old(Written()) <= Written()
      ensures ok <==> AllEncodable(ts) && old(at) + RoomAll(ts) <= out.Length
      ensures ok ==> Written() == old(Written()) + EncodeAll(ts)
      decreases ts, 0
    {
      if ts == [] {
        assert Written() + [] == Written();
        return true;
      }
      ghost var start := Written();
      FirstOfAll(ts);
      RoomAllIsEnough(ts[1..]);
      ok := WriteTree(ts[0]);
      if ok {
        ok := WriteAll(ts[1..]);
        assert start + Encode(ts[0]) + EncodeAll(ts[1..]) == start + (Encode(ts[0]) + EncodeAll(ts[1..]));
      }
    }
  }

  lemma FirstOfAll(ts: seq<Tree>)
    requires ts != []
    ensures AllEncodable(ts) <==> Encodable(ts[0]) && AllEncodable(ts[1..])
  {
    assert forall i :: 0 < i < |ts| ==> ts[i] == ts[1..][i - 1];
    if Encodable(ts[0]) && AllEncodable(ts[1..]) {
      forall i | 0 <= i < |ts| ensures Encodable(ts[i]) {
        if i > 0 { assert Encodable(ts[1..][i - 1]); }
      }
    }
  }

  lemma NarrowedHeader(before: Bytes, contents: Bytes, k: nat)
    requires k <= 3
    ensures var b := before + [0, 0, 0] + contents;
            b[..|before| + k] + b[|before| + 3..] == before + [0, 0, 0][..k] + contents
  {
  }

  lemma PatchedHeader(before: Bytes, contents: Bytes, header: Bytes)
    requires |header| <= 3
    ensures var b := before + [0, 0, 0][..|header|] + contents;
            b[..|before|] + header + b[|before| + |header|..] == before + header + contents
  {
  }

  lemma ElementIs(start: Bytes, tag: Byte, contents: Bytes)
    requires |contents| <= MAX_LEN
    ensures start + [tag] + Length(|contents|) + contents == start + ([tag] + Length(|contents|) + contents)
  {
  }
}
