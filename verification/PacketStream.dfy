/** The framework's packet framing: `UsePacketExtNetSession::onMsg` cuts a byte stream into packets. */
module PacketStream {

  type Byte = n: nat | n < 0x100

  /** The length of a packet's head, and how its length is read from the head. */
  datatype Format = Format(head: nat, len: seq<Byte> -> nat)

  /** A whole packet is at the beginning: its length is read from the head, and is not less than that of the head. */
  predicate Whole(f: Format, b: seq<Byte>) {
    |b| >= f.head && |b| >= Length(f, b) >= f.head
  }

  function Length(f: Format, b: seq<Byte>): nat
    requires |b| >= f.head
  {
    f.len(b[..f.head])
  }

  /** The packets, and the bytes that are left. */
  function Cut(f: Format, b: seq<Byte>): (r: (seq<seq<Byte>>, seq<Byte>))
    requires f.head > 0
    ensures |r.1| <= |b| && !Whole(f, r.1)
    decreases |b|
  {
    if Whole(f, b) then
      var n := Length(f, b);
      var (ps, rest) := Cut(f, b[n..]);
      ([b[..n]] + ps, rest)
    else ([], b)
  }

  function Joined(ps: seq<seq<Byte>>): seq<Byte> { if ps == [] then [] else ps[0] + Joined(ps[1..]) }

  lemma CutWhole(f: Format, b: seq<Byte>)
    requires f.head > 0 && Whole(f, b)
    ensures Cut(f, b) == ([b[..Length(f, b)]] + Cut(f, b[Length(f, b)..]).0, Cut(f, b[Length(f, b)..]).1)
  {
  }

  lemma WholeLength(f: Format, b: seq<Byte>)
    requires Whole(f, b)
    ensures f.head <= |b| && f.head <= Length(f, b) <= |b|
  {
  }

  lemma CutNone(f: Format, b: seq<Byte>)
    requires f.head > 0 && !Whole(f, b)
    ensures Cut(f, b) == ([], b) && Joined([]) + b == b
  {
  }

  lemma JoinedMore(p: seq<Byte>, ps: seq<seq<Byte>>)
    ensures Joined([p] + ps) == p + Joined(ps)
  {
    assert ([p] + ps)[1..] == ps;
  }

  lemma Together<T>(a: seq<T>, b: seq<T>, c: seq<T>)
    ensures a + b + c == a + (b + c)
  {
  }

  /** Nothing is lost or added. */
  lemma {:induction false} CutKeeps(f: Format, b: seq<Byte>)
    requires f.head > 0
    ensures var (ps, rest) := Cut(f, b); Joined(ps) + rest == b
    decreases |b|
  {
    hide Whole, Joined;
    if Whole(f, b) {
      WholeLength(f, b);
      var n := Length(f, b);
      var (ps, rest) := Cut(f, b[n..]);
      CutKeeps(f, b[n..]);
      CutWhole(f, b);
      JoinedMore(b[..n], ps);
      Together(b[..n], Joined(ps), rest);
      assert b == b[..n] + b[n..];
    } else {
      CutNone(f, b);
    }
  }

  /** The packet has the length that its head tells. */
  predicate Framed(f: Format, p: seq<Byte>) { |p| >= f.head && f.len(p[..f.head]) == |p| }

  /** It cannot be told yet where the packet ends, or its head tells less than the length of a head. */
  predicate Waits(f: Format, b: seq<Byte>) { |b| < f.head || f.len(b[..f.head]) > |b| || f.len(b[..f.head]) < f.head }

  /** The packets are those of which the stream consists, and what is left is no packet yet. */
  lemma {:induction false} CutExact(f: Format, ps: seq<seq<Byte>>, rest: seq<Byte>)
    requires f.head > 0
    ensures Cut(f, Joined(ps) + rest) == (ps, rest) <==> (forall p :: p in ps ==> Framed(f, p)) && Waits(f, rest)
    decreases |ps|
  {
    hide Joined, Cut, Framed, Waits, Whole;
    var b := Joined(ps) + rest;
    JoinedIs(ps);
    WaitsIs(f, b);
    WaitsIs(f, rest);
    if ps == [] {
      assert b == rest;
      if Whole(f, b) { CutWhole(f, b); } else { CutNone(f, b); }
    } else {
      var more := Joined(ps[1..]) + rest;
      assert b == ps[0] + more;
      assert ps[0] in ps && forall p :: p in ps[1..] ==> p in ps;
      assert forall p :: p in ps ==> p == ps[0] || p in ps[1..];
      CutExact(f, ps[1..], rest);
      FramedIs(f, ps[0], more);
      if Whole(f, b) {
        WholeLength(f, b);
        CutWhole(f, b);
        var n := Length(f, b);
        if Cut(f, b) == (ps, rest) { assert ps[0] == b[..n] && |ps[0]| == n && b[n..] == more; }
        if Framed(f, ps[0]) { assert b[..n] == ps[0] && b[n..] == more && [ps[0]] + ps[1..] == ps; }
      } else {
        CutNone(f, b);
      }
    }
  }

  lemma JoinedIs(ps: seq<seq<Byte>>)
    ensures Joined(ps) == if ps == [] then [] else ps[0] + Joined(ps[1..])
  {
  }

  lemma WaitsIs(f: Format, b: seq<Byte>)
    ensures Waits(f, b) <==> !Whole(f, b)
  {
  }

  lemma FramedIs(f: Format, p: seq<Byte>, more: seq<Byte>)
    ensures Framed(f, p) ==> Whole(f, p + more) && Length(f, p + more) == |p|
    ensures Whole(f, p + more) && Length(f, p + more) == |p| ==> Framed(f, p)
  {
    if |p| >= f.head { assert (p + more)[..f.head] == p[..f.head]; }
  }

  /** A packet that is whole stays so when more bytes arrive. */
  lemma WholeStays(f: Format, b: seq<Byte>, more: seq<Byte>)
    requires Whole(f, b)
    ensures Whole(f, b + more) && Length(f, b + more) == Length(f, b)
    ensures var n := Length(f, b); n <= |b| && (b + more)[..n] == b[..n] && (b + more)[n..] == b[n..] + more
  {
    assert (b + more)[..f.head] == b[..f.head];
  }

  /** More bytes, put behind what is left, give the packets that they give behind the whole. */
  lemma {:induction false} CutMore(f: Format, b: seq<Byte>, more: seq<Byte>)
    requires f.head > 0
    ensures var (ps, rest) := Cut(f, b);
            var (qs, last) := Cut(f, rest + more);
            Cut(f, b + more) == (ps + qs, last)
    decreases |b|
  {
    hide Whole;
    var (ps, rest) := Cut(f, b);
    var (qs, last) := Cut(f, rest + more);
    if Whole(f, b) {
      WholeLength(f, b);
      var n := Length(f, b);
      WholeStays(f, b, more);
      CutMore(f, b[n..], more);
      CutWhole(f, b);
      CutWhole(f, b + more);
      Together([b[..n]], Cut(f, b[n..]).0, qs);
    } else {
      CutNone(f, b);
      assert [] + qs == qs;
    }
  }

  /** One chunk after the other, each behind what the one before it left. */
  function Feed(f: Format, tail: seq<Byte>, chunks: seq<seq<Byte>>): (seq<seq<Byte>>, seq<Byte>)
    requires f.head > 0
    decreases |chunks|
  {
    if chunks == [] then ([], tail)
    else
      var (ps, rest) := Cut(f, tail + chunks[0]);
      var (qs, last) := Feed(f, rest, chunks[1..]);
      (ps + qs, last)
  }

  lemma {:induction false} FeedIsCut(f: Format, b: seq<Byte>, chunks: seq<seq<Byte>>)
    requires f.head > 0
    ensures var (ps, rest) := Cut(f, b);
            var (qs, last) := Feed(f, rest, chunks);
            Cut(f, b + Joined(chunks)) == (ps + qs, last)
    decreases |chunks|
  {
    hide Cut;
    var (ps, rest) := Cut(f, b);
    if chunks == [] {
      assert b + [] == b && ps + [] == ps;
    } else {
      var (ps1, rest1) := Cut(f, rest + chunks[0]);
      CutMore(f, b, chunks[0]);
      FeedIsCut(f, b + chunks[0], chunks[1..]);
      var (qs, last) := Feed(f, rest1, chunks[1..]);
      Together(b, chunks[0], Joined(chunks[1..]));
      Together(ps, ps1, qs);
    }
  }

  /** However a stream is cut into chunks, the packets are those of the whole stream, and so are the bytes left over. */
  lemma ChunksDoNotMatter(f: Format, chunks: seq<seq<Byte>>)
    requires f.head > 0
    ensures Feed(f, [], chunks) == Cut(f, Joined(chunks))
    ensures var (ps, rest) := Feed(f, [], chunks); Joined(ps) + rest == Joined(chunks)
  {
    FeedIsCut(f, [], chunks);
    CutKeeps(f, Joined(chunks));
    assert [] + Joined(chunks) == Joined(chunks);
    assert !Whole(f, []);
    assert Cut(f, []) == ([], []);
    var (qs, last) := Feed(f, [], chunks);
    assert [] + qs == qs;
  }

  /** The session: the packets that it hands to the logic thread, in order. */
  class Session {
    const format: Format
    var delivered: seq<seq<Byte>>

    constructor (f: Format)
      ensures format == f && delivered == []
    {
      format, delivered := f, [];
    }

    /** `onMsg`: the result is the number of bytes that were used. */
    method OnMsg(buffer: seq<Byte>) returns (used: nat)
      requires format.head > 0
      modifies this`delivered
      ensures used <= |buffer|
      ensures var (ps, rest) := Cut(format, buffer); delivered == old(delivered) + ps && buffer[used..] == rest
    {
      hide Cut;
      var parse: nat, left: nat := 0, |buffer|;
      used := 0;
      ghost var done: seq<seq<Byte>> := [];
      var more := true;
      NothingDone(format, buffer);
      while more
        invariant parse == used && parse + left == |buffer| && delivered == old(delivered) + done
        invariant Cut(format, buffer) == (done + Cut(format, buffer[parse..]).0, Cut(format, buffer[parse..]).1)
        invariant !more ==> !Whole(format, buffer[parse..])
        decreases left, more
      {
        more := false;
        ghost var b := buffer[parse..];
        if left >= format.head {
          assert b[..format.head] == buffer[parse..parse + format.head];
          var len := format.len(buffer[parse..parse + format.head]);
          if left >= len && len >= format.head {
            delivered := delivered + [buffer[parse..parse + len]];
            CutWhole(format, b);
            assert b[..len] == buffer[parse..parse + len] && b[len..] == buffer[parse + len..];
            Together(done, [b[..len]], Cut(format, b[len..]).0);
            done := done + [b[..len]];
            used, parse, left := used + len, parse + len, left - len;
            more := true;
          }
        }
      }
      CutNone(format, buffer[parse..]);
      assert done + [] == done;
    }
  }

  lemma NothingDone(f: Format, b: seq<Byte>)
    requires f.head > 0
    ensures b[0..] == b && Cut(f, b) == ([] + Cut(f, b).0, Cut(f, b).1)
  {
    hide Cut;
    var (ps, _) := Cut(f, b);
    assert [] + ps == ps;
  }
}
