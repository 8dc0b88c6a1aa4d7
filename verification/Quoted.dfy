/** `%q` and the lexer: what `addquoted` writes (`lstrlib.c`), `read_string` reads back (`llex.c`). */
module Quoted {
  import opened Common
  import opened StringBuffer

  const QUOTE: char := '"'

  // `addquoted`

  function QuotedChar(c: char): string {
    if c == '"' || c == '\\' || c == '\n' then ['\\', c]
    else if c == '\r' then "\\r"
    else if c == '\0' then "\\000"
    else [c]
  }

  function Body(s: string): string {
    if s == [] then [] else QuotedChar(s[0]) + Body(s[1..])
  }

  function Quote(s: string): string { [QUOTE] + Body(s) + [QUOTE] }

  // `read_string`

  /** The string, what is behind it, and the number of lines that were passed; or an error. */
  datatype Lexed = Text(s: string, rest: string, lines: nat) | Unfinished | TooLarge

  predicate IsNewline(c: char) { c == '\n' || c == '\r' }

  predicate IsDigit(c: char) { '0' <= c <= '9' }

  /** `inclinenumber`: the two characters of a line end count as one. */
  function SkipNewline(t: string): (r: string)
    requires t != [] && IsNewline(t[0])
    ensures |r| < |t|
  {
    if |t| > 1 && IsNewline(t[1]) && t[1] != t[0] then t[2..] else t[1..]
  }

  /** The digits of an escape, three at most: the value, and how many. */
  function Decimal(t: string, i: nat, c: nat): (r: (nat, nat))
    requires i <= 3 && i <= |t|
    ensures i <= r.1 <= 3 && r.1 <= |t|
    decreases 3 - i
  {
    if i < 3 && i < |t| && IsDigit(t[i]) then Decimal(t, i + 1, 10 * c + (t[i] as int - '0' as int)) else (c, i)
  }

  /** The escapes of one letter. */
  function Letter(c: char): Option<char> {
    match c
    case 'a' => Some(7 as char)
    case 'b' => Some(8 as char)
    case 'f' => Some(12 as char)
    case 'n' => Some('\n')
    case 'r' => Some('\r')
    case 't' => Some('\t')
    case 'v' => Some(11 as char)
    case _ => None
  }

  function Prepend(c: char, r: Lexed): Lexed { if r.Text? then Text([c] + r.s, r.rest, r.lines) else r }

  function MoreLines(n: nat, r: Lexed): Lexed { if r.Text? then r.(lines := r.lines + n) else r }

  /** A character that was read: how much of the text was used for it, and the lines that were passed. */
  datatype Piece = Piece(c: char, used: nat, lines: nat) | Wrong(e: Lexed)

  /** What a backslash before the text means. */
  function Escape(t: string): (r: Piece)
    requires t != []
    ensures r.Piece? ==> 1 <= r.used <= |t|
    ensures r.Wrong? ==> r.e == TooLarge
  {
    if Letter(t[0]).Some? then Piece(Letter(t[0]).value, 1, 0)
    else if IsNewline(t[0]) then Piece('\n', |t| - |SkipNewline(t)|, 1)
    else if !IsDigit(t[0]) then Piece(t[0], 1, 0)
    else
      var (c, n) := Decimal(t, 0, 0);
      DecimalSome(t);
      if c > 255 then Wrong(TooLarge) else Piece(c as char, n, 0)
  }

  function One(t: string): (r: Piece)
    requires t != []
    ensures r.Piece? ==> 1 <= r.used <= |t|
    ensures r.Wrong? ==> !r.e.Text?
  {
    if t[0] != '\\' then Piece(t[0], 1, 0)
    else if |t| == 1 then Wrong(Unfinished)
    else
      var x := Escape(t[1..]);
      if x.Wrong? then x else x.(used := x.used + 1)
  }

  /** The loop of `read_string`, behind the opening delimiter. */
  function ReadFrom(t: string, del: char): Lexed
    decreases |t|
  {
    if t == [] then Unfinished
    else if t[0] == del then Text([], t[1..], 0)
    else if IsNewline(t[0]) then Unfinished
    else
      match One(t)
      case Wrong(e) => e
      case Piece(c, used, lines) => Prepend(c, MoreLines(lines, ReadFrom(t[used..], del)))
  }

  lemma ReadEnds(t: string, del: char)
    ensures t == [] ==> ReadFrom(t, del) == Unfinished
    ensures t != [] && t[0] == del ==> ReadFrom(t, del) == Text([], t[1..], 0)
    ensures t != [] && t[0] != del && IsNewline(t[0]) ==> ReadFrom(t, del) == Unfinished
  {
  }

  lemma ReadOne(t: string, del: char)
    requires t != [] && t[0] != del && !IsNewline(t[0])
    ensures var x := One(t);
            ReadFrom(t, del) == if x.Wrong? then x.e else Prepend(x.c, MoreLines(x.lines, ReadFrom(t[x.used..], del)))
  {
    hide One;
  }

  lemma DecimalSome(t: string)
    requires t != [] && IsDigit(t[0])
    ensures Decimal(t, 0, 0).1 >= 1 && Decimal(t, 0, 0).0 < 1000
  {
    DecimalBound(t, 1, t[0] as int - '0' as int);
  }

  lemma DecimalBound(t: string, i: nat, c: nat)
    requires 1 <= i <= 3 && i <= |t| && (i == 1 ==> c < 10) && (i == 2 ==> c < 100) && (i == 3 ==> c < 1000)
    ensures Decimal(t, i, c).1 >= i && Decimal(t, i, c).0 < 1000
    decreases 3 - i
  {
    if i < 3 && i < |t| && IsDigit(t[i]) { DecimalBound(t, i + 1, 10 * c + (t[i] as int - '0' as int)); }
  }

  function Newlines(s: string): nat {
    if s == [] then 0 else (if s[0] == '\n' then 1 else 0) + Newlines(s[1..])
  }

  lemma EscapedZero(t: string)
    ensures Escape("000" + t) == Piece('\0', 3, 0)
  {
    var w := "000" + t;
    assert w[0] == '0' && w[1] == '0' && w[2] == '0';
    assert Decimal(w, 3, 0) == (0, 3);
    assert Decimal(w, 2, 0) == (0, 3);
    assert Decimal(w, 1, 0) == (0, 3);
  }

  lemma EscapedLine(t: string)
    requires t != [] ==> !IsNewline(t[0])
    ensures Escape(['\n'] + t) == Piece('\n', 1, 1)
  {
    var w := ['\n'] + t;
    assert |w| > 1 ==> w[1] == t[0];
  }

  /** What is written behind a backslash means the character. */
  lemma EscapedBack(c: char, t: string)
    requires QuotedChar(c) != [c] && (t != [] ==> !IsNewline(t[0]))
    ensures var x := QuotedChar(c)[1..];
            QuotedChar(c)[0] == '\\' && x != [] && Escape(x + t) == Piece(c, |x|, if c == '\n' then 1 else 0)
  {
    hide Decimal, SkipNewline;
    var x := QuotedChar(c)[1..];
    if c == '\n' {
      EscapedLine(t);
      assert x == ['\n'];
    } else if c == '\0' {
      EscapedZero(t);
      assert x == "000";
    } else {
      assert (x + t)[0] == if c == '\r' then 'r' else c;
    }
  }

  /** One character that was written is read back. */
  lemma ReadsChar(c: char, t: string)
    requires t != [] ==> !IsNewline(t[0])
    ensures ReadFrom(QuotedChar(c) + t, QUOTE) == Prepend(c, MoreLines(if c == '\n' then 1 else 0, ReadFrom(t, QUOTE)))
  {
    hide Escape, Prepend, ReadFrom, MoreLines;
    var w := QuotedChar(c) + t;
    ReadOne(w, QUOTE);
    if QuotedChar(c) == [c] {
      assert w[1..] == t;
    } else {
      var x := QuotedChar(c)[1..];
      EscapedBack(c, t);
      assert w[1..] == x + t && w[1 + |x|..] == t;
    }
  }

  /** What follows a written character never begins with the end of a line. */
  lemma BodyBegins(s: string, tail: string)
    ensures var t := Body(s) + [QUOTE] + tail; t != [] && !IsNewline(t[0])
  {
    if s != [] { assert Body(s)[0] == QuotedChar(s[0])[0]; }
  }

  lemma BodyFirst(s: string, tail: string)
    requires s != []
    ensures Body(s) + [QUOTE] + tail == QuotedChar(s[0]) + (Body(s[1..]) + [QUOTE] + tail)
  {
    hide QuotedChar;
  }

  lemma {:induction false} ReadsBody(s: string, tail: string)
    ensures ReadFrom(Body(s) + [QUOTE] + tail, QUOTE) == Text(s, tail, Newlines(s))
    decreases |s|
  {
    hide QuotedChar, One, IsNewline;
    if s == [] {
      assert (Body(s) + [QUOTE] + tail)[1..] == tail;
    } else {
      var t := Body(s[1..]) + [QUOTE] + tail;
      ReadsBody(s[1..], tail);
      BodyBegins(s[1..], tail);
      ReadsChar(s[0], t);
      BodyFirst(s, tail);
      assert s == [s[0]] + s[1..];
    }
  }

  /** Reading the output of `%q` gives every string back, whatever follows it, and counts its line ends. */
  lemma ReadsQuoted(s: string, tail: string)
    ensures var q := Quote(s) + tail; q[0] == QUOTE && ReadFrom(q[1..], QUOTE) == Text(s, tail, Newlines(s))
  {
    hide Body, ReadFrom, Newlines;
    ReadsBody(s, tail);
    assert (Quote(s) + tail)[1..] == Body(s) + [QUOTE] + tail;
  }

  // In place

  lemma BodyNext(s: string, i: nat)
    requires i < |s|
    ensures Body(s[..i + 1]) == Body(s[..i]) + QuotedChar(s[i])
    decreases i
  {
    assert s[..i + 1] == s[..i] + [s[i]];
    BodyAppend(s[..i], s[i]);
  }

  lemma {:induction false} BodyAppend(s: string, c: char)
    ensures Body(s + [c]) == Body(s) + QuotedChar(c)
  {
    if s == [] {
      assert s + [c] == [c] && [c][1..] == [];
      assert QuotedChar(c) + [] == QuotedChar(c);
    } else {
      assert (s + [c])[0] == s[0] && (s + [c])[1..] == s[1..] + [c];
      BodyAppend(s[1..], c);
    }
  }

  method AddQuotedChar(b: Buffer, c: char)
    requires b.Valid()
    modifies b`p, b`lvl, b`stack, b.buffer
    ensures b.Valid() && b.Base() == old(b.Base()) && b.Contents() == old(b.Contents()) + QuotedChar(c)
  {
    hide Concat;
    if c == '"' || c == '\\' || c == '\n' {
      b.AddChar('\\');
      b.AddChar(c);
    } else if c == '\r' {
      b.AddString("\\r");
    } else if c == '\0' {
      b.AddString("\\000");
    } else {
      b.AddChar(c);
    }
  }

  /** `addquoted`. */
  method AddQuoted(b: Buffer, s: string)
    requires b.Valid()
    modifies b`p, b`lvl, b`stack, b.buffer
    ensures b.Valid() && b.Base() == old(b.Base()) && b.Contents() == old(b.Contents()) + Quote(s)
  {
    hide Concat, Body, QuotedChar;
    ghost var first := b.Contents();
    b.AddChar(QUOTE);
    var i := 0;
    BodyNothing(s);
    while i < |s|
      invariant i <= |s| && b.Valid() && b.Base() == old(b.Base()) && b.Contents() == first + [QUOTE] + Body(s[..i])
    {
      BodyNext(s, i);
      AddQuotedChar(b, s[i]);
      i := i + 1;
    }
    b.AddChar(QUOTE);
    assert s[..i] == s;
  }

  lemma BodyNothing(s: string)
    ensures Body(s[..0]) == []
  {
  }

  /** The state of the lexer that `read_string` uses. */
  class Lexer {
    const input: string
    var pos: nat
    var linenumber: nat
    var buffer: string

    predicate Valid()
      reads this
    {
      pos <= |input|
    }

    constructor (t: string)
      ensures Valid() && input == t && pos == 0 && linenumber == 1 && buffer == ""
    {
      input, pos, linenumber, buffer := t, 0, 1, "";
    }

    /** `inclinenumber`. */
    method IncLineNumber()
      requires pos < |input| && IsNewline(input[pos])
      modifies this`pos, this`linenumber
      ensures Valid() && input[pos..] == SkipNewline(input[old(pos)..]) && linenumber == old(linenumber) + 1
              && pos > old(pos)
    {
      var was := input[pos];
      pos := pos + 1;
      if pos < |input| && IsNewline(input[pos]) && input[pos] != was { pos := pos + 1; }
      linenumber := linenumber + 1;
    }

    /** The digits of a decimal escape. */
    method ReadDecimal() returns (c: nat)
      requires pos < |input| && IsDigit(input[pos])
      modifies this`pos
      ensures Valid() && pos > old(pos) && (c, pos - old(pos)) == Decimal(input[old(pos)..], 0, 0)
    {
      c := 0;
      var i := 0;
      ghost var t := input[pos..];
      while i < 3 && pos < |input| && IsDigit(input[pos])
        invariant i <= 3 && pos <= |input| && pos == old(pos) + i && Decimal(t, i, c) == Decimal(t, 0, 0)
        decreases 3 - i
      {
        assert t[i] == input[pos];
        c := 10 * c + (input[pos] as int - '0' as int);
        pos := pos + 1;
        i := i + 1;
      }
      DecimalSome(t);
    }

    /** A backslash, which has been passed, and what follows it. */
    method ReadEscape() returns (ok: bool)
      requires pos < |input|
      modifies this
      ensures Valid()
      ensures var x := Escape(input[old(pos)..]);
              && ok == x.Piece?
              && (ok ==> buffer == old(buffer) + [x.c] && pos == old(pos) + x.used
                         && linenumber == old(linenumber) + x.lines)
    {
      var l := Letter(input[pos]);
      if l.Some? {
        buffer, pos := buffer + [l.value], pos + 1;
      } else if IsNewline(input[pos]) {
        buffer := buffer + ['\n'];
        IncLineNumber();
      } else if !IsDigit(input[pos]) {
        buffer, pos := buffer + [input[pos]], pos + 1;
      } else {
        DecimalSome(input[pos..]);
        var c := ReadDecimal();
        if c > 255 { return false; }
        buffer := buffer + [c as char];
      }
      ok := true;
    }

    /** One turn of the loop of `read_string`, at no end of the string. */
    method ReadPiece() returns (ok: bool, e: Lexed)
      requires pos < |input|
      modifies this
      ensures Valid()
      ensures var x := One(input[old(pos)..]);
              && ok == x.Piece? && (!ok ==> e == x.e)
              && (ok ==> buffer == old(buffer) + [x.c] && pos == old(pos) + x.used
                         && linenumber == old(linenumber) + x.lines)
    {
      hide Escape;
      ghost var t := input[pos..];
      e := Unfinished;
      if input[pos] != '\\' {
        buffer, pos := buffer + [input[pos]], pos + 1;
        return true, e;
      }
      pos := pos + 1;
      assert input[pos..] == t[1..];
      if pos == |input| { return false, e; }
      ok := ReadEscape();
      e := TooLarge;
    }

    /** `read_string`, with the opening delimiter under the cursor; the buffer ends up with the contents alone. */
    method ReadString(del: char) returns (r: Lexed)
      requires Valid() && pos < |input|
      modifies this
      ensures Valid() && r == ReadFrom(input[old(pos) + 1..], del)
      ensures r.Text? ==> buffer == r.s && input[pos..] == r.rest && linenumber == old(linenumber) + r.lines
    {
      hide One, ReadFrom, Prepend, MoreLines, Joined;
      var first := linenumber;
      buffer, pos := "", pos + 1;
      ghost var start: nat, lines: nat := pos, 0;
      JoinedNothing(ReadFrom(input[start..], del));
      while pos < |input| && input[pos] != del
        invariant pos <= |input| && linenumber == first + lines
        invariant ReadFrom(input[start..], del) == Joined(buffer, lines, ReadFrom(input[pos..], del))
        decreases |input| - pos
      {
        ghost var t, was, before := input[pos..], buffer, lines;
        ReadEnds(t, del);
        JoinedError(buffer, lines, Unfinished);
        if IsNewline(input[pos]) { return Unfinished; }
        ReadOne(t, del);
        ghost var x := One(t);
        var ok, e := ReadPiece();
        if !ok {
          JoinedError(was, before, e);
          return e;
        }
        lines := linenumber - first;
        assert input[pos..] == t[x.used..];
        JoinedChar(was, before, x.c, x.lines, ReadFrom(input[pos..], del));
      }
      ReadEnds(input[pos..], del);
      JoinedError(buffer, lines, Unfinished);
      if pos == |input| { return Unfinished; }
      assert input[pos..][1..] == input[pos + 1..];
      pos := pos + 1;
      JoinedEnd(buffer, lines, input[pos..]);
      r := Text(buffer, input[pos..], linenumber - first);
    }
  }

  function Joined(s: string, lines: nat, r: Lexed): Lexed {
    if r.Text? then Text(s + r.s, r.rest, lines + r.lines) else r
  }

  lemma JoinedNothing(r: Lexed)
    ensures Joined("", 0, r) == r
  {
    if r.Text? { assert "" + r.s == r.s; }
  }

  lemma JoinedError(s: string, lines: nat, e: Lexed)
    requires !e.Text?
    ensures Joined(s, lines, e) == e
  {
  }

  lemma JoinedEnd(s: string, lines: nat, rest: string)
    ensures Joined(s, lines, Text([], rest, 0)) == Text(s, rest, lines)
  {
    assert s + [] == s;
  }

  lemma JoinedChar(s: string, lines: nat, c: char, more: nat, r: Lexed)
    ensures Joined(s, lines, Prepend(c, MoreLines(more, r))) == Joined(s + [c], lines + more, r)
    ensures MoreLines(0, r) == r
  {
    if r.Text? { assert s + ([c] + r.s) == s + [c] + r.s; }
  }
}
