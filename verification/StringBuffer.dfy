/** The string buffer of `lauxlib.c`: bytes in a fixed array, and longer pieces as strings on the Lua stack. */
module StringBuffer {

  const MINSTACK: nat := 20
  const LIMIT: nat := MINSTACK / 2

  function Concat(l: seq<string>): string {
    if l == [] then "" else l[0] + Concat(l[1..])
  }

  lemma ConcatFirst(l: seq<string>)
    requires l != []
    ensures Concat(l) == l[0] + Concat(l[1..])
  {
  }

  lemma ConcatNone(b: seq<string>)
    ensures Concat([]) + Concat(b) == Concat(b)
  {
  }

  lemma Joins(a: string, b: string, c: string)
    ensures a + (b + c) == a + b + c
  {
  }

  lemma {:induction false} ConcatSplit(a: seq<string>, b: seq<string>)
    ensures Concat(a + b) == Concat(a) + Concat(b)
  {
    hide Concat;
    if a == [] {
      assert a + b == b;
      ConcatNone(b);
    } else {
      ConcatSplit(a[1..], b);
      ConcatFirst(a);
      ConcatFirst(a + b);
      assert (a + b)[0] == a[0] && (a + b)[1..] == a[1..] + b;
      Joins(a[0], Concat(a[1..]), Concat(b));
    }
  }

  lemma ConcatOne(s: string)
    ensures Concat([s]) == s
  {
    assert Concat([s]) == s + Concat([]);
  }

  class Buffer {
    const buffer: array<char>
    var p: nat
    var lvl: nat
    /** The stack of the Lua state; the topmost `lvl` strings belong to the buffer. */
    var stack: seq<string>

    predicate Valid()
      reads this
    {
      p <= buffer.Length && buffer.Length > 0 && lvl <= |stack| && lvl < LIMIT
    }

    /** What was on the stack before. */
    function Base(): seq<string>
      reads this
      requires lvl <= |stack|
    {
      stack[..|stack| - lvl]
    }

    /** Everything that was added. */
    function Contents(): string
      reads this, buffer
      requires lvl <= |stack| && p <= buffer.Length
    {
      Concat(stack[|stack| - lvl..]) + buffer[..p]
    }

    /** `luaL_buffinit`. */
    constructor (size: nat, base: seq<string>)
      requires size > 0
      ensures Valid() && fresh(buffer) && buffer.Length == size && stack == base && lvl == 0 && Base() == base
              && Contents() == ""
    {
      buffer := new char[size](_ => '\0');
      p, lvl, stack := 0, 0, base;
    }

    /** `emptybuffer`: the bytes become a string on the stack. */
    method EmptyBuffer() returns (r: bool)
      requires p <= buffer.Length && lvl <= |stack|
      modifies this`p, this`lvl, this`stack
      ensures r == (old(p) > 0) && p == 0 && lvl == old(lvl) + (if r then 1 else 0)
      ensures stack == if r then old(stack) + [old(buffer[..p])] else old(stack)
    {
      if p == 0 { return false; }
      stack := stack + [buffer[..p]];
      p, lvl := 0, lvl + 1;
      r := true;
    }

    /** `lua_concat` of the topmost strings. */
    method ConcatTop(n: nat)
      requires n <= |stack|
      modifies this`stack
      ensures stack == old(stack)[..|old(stack)| - n] + [Concat(old(stack)[|old(stack)| - n..])]
    {
      stack := stack[..|stack| - n] + [Concat(stack[|stack| - n..])];
    }

    /** `adjuststack`: joins the topmost strings, so that few and not too short ones remain. */
    method AdjustStack()
      requires lvl <= |stack| && p <= buffer.Length
      modifies this`lvl, this`stack
      ensures lvl <= |stack| && lvl < LIMIT && (old(lvl) > 0 ==> lvl > 0)
      ensures Base() == old(Base()) && Contents() == old(Contents())
    {
      hide Concat;
      if lvl > 1 {
        var toget := 1;
        var toplen := |stack[|stack| - 1]|;
        var more := true;
        while more
          invariant 1 <= toget <= lvl && (more ==> toget < lvl) && (!more ==> toget == lvl || lvl - toget + 1 < LIMIT)
          decreases more, lvl - toget
        {
          var l := |stack[|stack| - (toget + 1)]|;
          if lvl - toget + 1 >= LIMIT || toplen > l {
            toplen := toplen + l;
            toget := toget + 1;
            more := toget < lvl;
          } else {
            more := false;
          }
        }
        ghost var n, st := |stack| - lvl, stack;
        ConcatTop(toget);
        lvl := lvl - toget + 1;
        TopJoined(st, n, |st| - toget, stack);
      }
    }

    /** `luaL_addchar`, with `luaL_prepbuffer`. */
    method AddChar(c: char)
      requires Valid()
      modifies this`p, this`lvl, this`stack, buffer
      ensures Valid() && Base() == old(Base()) && Contents() == old(Contents()) + [c]
    {
      hide Concat;
      if p >= buffer.Length {
        BytesPushed(stack, |stack| - lvl, buffer[..p]);
        var r := EmptyBuffer();
        assert buffer[..p] == "";
        AdjustStack();
      }
      assert Contents() == old(Contents());
      ghost var bytes, rest := buffer[..p], Concat(stack[|stack| - lvl..]);
      assert rest + bytes + [c] == rest + (bytes + [c]);
      buffer[p] := c;
      p := p + 1;
      assert buffer[..p] == bytes + [c];
    }

    /** `luaL_addlstring`. */
    method AddString(s: string)
      requires Valid()
      modifies this`p, this`lvl, this`stack, buffer
      ensures Valid() && Base() == old(Base()) && Contents() == old(Contents()) + s
    {
      var i := 0;
      while i < |s|
        invariant 0 <= i <= |s| && Valid() && Base() == old(Base()) && Contents() == old(Contents()) + s[..i]
      {
        AddChar(s[i]);
        assert s[..i + 1] == s[..i] + [s[i]];
        i := i + 1;
      }
      assert s[..i] == s;
    }

    /** `luaL_addvalue`: adds the string on top of the stack, above those of the buffer. */
    method AddValue(v: string)
      requires Valid()
      modifies this`p, this`lvl, this`stack, buffer
      ensures Valid() && Base() == old(Base()) && Contents() == old(Contents()) + v
    {
      hide Concat;
      ghost var st, n, bytes := stack, |stack| - lvl, buffer[..p];
      stack := stack + [v];
      if |v| <= buffer.Length - p {
        forall i | 0 <= i < |v| {
          buffer[p + i] := v[i];
        }
        assert buffer[..p + |v|] == bytes + v;
        p := p + |v|;
        stack := stack[..|stack| - 1];
        assert stack == st;
      } else {
        var r := EmptyBuffer();
        if r {
          stack := stack[..|stack| - 2] + [stack[|stack| - 1], stack[|stack| - 2]];
        }
        BothPushed(st, n, bytes, v, stack);
        lvl := lvl + 1;
        assert |stack| - lvl == n && buffer[..p] == "";
        assert Contents() == Concat(st[n..]) + bytes + v + "";
        AdjustStack();
      }
    }

    /** `luaL_pushresult`: everything that was added becomes one string on the stack. */
    method PushResult()
      requires Valid()
      modifies this`p, this`lvl, this`stack
      ensures stack == old(Base()) + [old(Contents())]
    {
      hide Concat;
      BytesPushed(stack, |stack| - lvl, buffer[..p]);
      ghost var n := |stack| - lvl;
      var r := EmptyBuffer();
      assert !r ==> old(buffer[..p]) == "" && old(Contents()) == Concat(stack[n..]) + "";
      assert |stack| - lvl == n && stack[..n] == old(Base()) && Concat(stack[n..]) == old(Contents());
      ConcatTop(lvl);
      lvl := 1;
    }
  }

  /** The bytes, if there are any, and the string. */
  lemma BothPushed(st: seq<string>, n: nat, bytes: string, v: string, st': seq<string>)
    requires n <= |st| && st' == (if bytes == "" then st + [v] else st + [bytes, v])
    ensures Concat(st'[n..]) == Concat(st[n..]) + bytes + v && st'[..n] == st[..n] && n <= |st'|
  {
    hide Concat;
    if bytes == "" {
      BytesPushed(st, n, v);
      assert Concat(st[n..]) + "" == Concat(st[n..]);
    } else {
      BytesPushed(st, n, bytes);
      BytesPushed(st + [bytes], n, v);
      assert st' == (st + [bytes]) + [v];
    }
  }

  lemma BytesPushed(st: seq<string>, n: nat, bytes: string)
    requires n <= |st|
    ensures Concat((st + [bytes])[n..]) == Concat(st[n..]) + bytes && (st + [bytes])[..n] == st[..n]
  {
    assert (st + [bytes])[n..] == st[n..] + [bytes];
    ConcatSplit(st[n..], [bytes]);
    ConcatOne(bytes);
  }

  lemma TopJoined(st: seq<string>, n: nat, k: nat, st': seq<string>)
    requires n <= k <= |st| && st' == st[..k] + [Concat(st[k..])]
    ensures Concat(st'[n..]) == Concat(st[n..]) && st'[..n] == st[..n]
  {
    assert st'[n..] == st[n..k] + [Concat(st[k..])];
    assert st[n..] == st[n..k] + st[k..];
    ConcatSplit(st[n..k], [Concat(st[k..])]);
    ConcatSplit(st[n..k], st[k..]);
    ConcatOne(Concat(st[k..]));
  }
}
