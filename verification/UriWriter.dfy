/** Normalising a target URI in place, in buffers of bounded size: cursor
    loops that write exactly the normal form. */
module UriWriter {
  import opened Basics
  import opened Numerals
  import opened Uri
  import opened UriLaws

  /** The text up to its last slash, which for a joined stack is the stack
      without its last segment. */
  function UpToLastSlash(s: string): string {
    if s == "" then "" else if s[|s| - 1] == '/' then s[..|s| - 1] else UpToLastSlash(s[..|s| - 1])
  }

  lemma {:induction false} LastSlashIs(s: string, seg: string)
    requires '/' !in seg
    ensures UpToLastSlash(s + "/" + seg) == s
  {
    var t := s + "/" + seg;
    if seg == "" {
      assert t[..|t| - 1] == s;
    } else {
      assert t[|t| - 1] == seg[|seg| - 1];
      assert t[..|t| - 1] == s + "/" + seg[..|seg| - 1];
      LastSlashIs(s, seg[..|seg| - 1]);
    }
  }

  lemma {:induction false} JoinPush(stack: seq<string>, seg: string)
    ensures Join(stack + [seg]) == Join(stack) + "/" + seg
  {
    if stack == [] {
      assert Join([seg]) == "/" + seg + Join([][..]) && [seg][1..] == [];
    } else {
      assert (stack + [seg])[1..] == stack[1..] + [seg];
      JoinPush(stack[1..], seg);
    }
  }

  lemma JoinPop(stack: seq<string>)
    requires NoSlash(stack)
    ensures UpToLastSlash(Join(stack)) == Join(Pop(stack))
  {
    if stack != [] {
      assert stack == Pop(stack) + [stack[|stack| - 1]];
      JoinPush(Pop(stack), stack[|stack| - 1]);
      LastSlashIs(Join(Pop(stack)), stack[|stack| - 1]);
    }
  }

  /** A bounded writer: a character that does not fit refuses the write. */
  class Out {
    const buf: array<char>
    var len: nat

    ghost predicate Valid()
      reads this
    {
      len <= buf.Length
    }

    ghost function Written(): string
      reads this, buf
      requires Valid()
    {
      buf[..len]
    }

    constructor (capacity: nat)
      ensures Valid() && fresh(buf) && buf.Length == capacity && Written() == ""
    {
      buf := new char[capacity];
      len := 0;
    }

    method Push(c: char) returns (ok: bool)
      requires Valid()
      modifies this`len, buf
      ensures Valid() && ok == (old(len) < buf.Length)
      ensures Written() == if ok then old(Written()) + [c] else old(Written())
    {
      if len == buf.Length {
        return false;
      }
      buf[len] := c;
      len := len + 1;
      return true;
    }

    method Extend(bytes: string) returns (ok: bool)
      requires Valid()
      modifies this`len, buf
      ensures Valid() && ok == (old(len) + |bytes| <= buf.Length)
      ensures ok ==> Written() == old(Written()) + bytes
    {
      ok := true;
      for i := 0 to |bytes|
        invariant Valid() && len == old(len) + i && Written() == old(Written()) + bytes[..i]
      {
        ok := Push(bytes[i]);
        if !ok {
          return;
        }
      }
      assert bytes[..|bytes|] == bytes;
    }

    /** A port number, without leading zeros. */
    method WriteDecimal(port: nat) returns (ok: bool)
      requires Valid() && port < 100_000
      modifies this`len, buf
      ensures Valid() && ok == (old(len) + |Decimal(port)| <= buf.Length)
      ensures ok ==> Written() == old(Written()) + Decimal(port)
    {
      Below100000(port);
      var digits, at := DigitsOf(port, 5);
      ok := Extend(digits[at..]);
    }

    /** Drop the last `/segment` written after `base`. */
    method PopSegment(base: nat)
      requires Valid() && base <= len
      modifies this`len
      ensures Valid() && base <= len <= old(len)
      ensures Written() == old(Written())[..base] + UpToLastSlash(old(Written())[base..])
    {
      ghost var whole := buf[base..len];
      assert whole == Written()[base..];
      while len > base && buf[len - 1] != '/'
        invariant Valid() && base <= len <= old(len)
        invariant UpToLastSlash(buf[base..len]) == UpToLastSlash(whole)
      {
        assert buf[base..len][..len - base - 1] == buf[base..len - 1];
        len := len - 1;
      }
      if len > base {
        assert buf[base..len][..len - base - 1] == buf[base..len - 1];
        len := len - 1;
      }
    }
  }

  lemma Below100000(port: nat)
    requires port < 100_000
    ensures |Decimal(port)| <= 5
  {
    assert PowerOfTen(1) == 10 && PowerOfTen(2) == 100 && PowerOfTen(3) == 1000 && PowerOfTen(4) == 10_000;
    DecimalLength(port, 5);
  }
}
