/** What string literals mean: section 2.1 of the reference manual, for the function that reads them. */
module Literals {
  import opened Quoted

  /** A part of a literal: a character, a letter or another character behind a backslash, a line end, or digits. */
  datatype Part = Raw(c: char) | Letter(c: char) | Other(c: char) | Line(nl: string) | Code(ds: string)

  function PartText(x: Part): string {
    match x
    case Raw(c) => [c]
    case Letter(c) => ['\\', c]
    case Other(c) => ['\\', c]
    case Line(nl) => "\\" + nl
    case Code(ds) => "\\" + ds
  }

  predicate Digit(c: char) { 48 <= c as int <= 57 }

  predicate LineEnd(c: char) { c as int == 10 || c as int == 13 }

  function CodeValue(ds: string): int {
    if ds == [] then 0 else 10 * CodeValue(ds[..|ds| - 1]) + (ds[|ds| - 1] as int - 48)
  }

  /** The code of the character, in ASCII. */
  function LetterCode(c: char): int {
    if c == 'a' then 7
    else if c == 'b' then 8
    else if c == 'f' then 12
    else if c == 'n' then 10
    else if c == 'r' then 13
    else if c == 't' then 9
    else 11
  }

  /** The code is that of a byte. */
  predicate IsByte(x: Part) { x.Code? ==> 0 <= CodeValue(x.ds) <= 255 }

  /** The character that the part stands for. */
  function PartChar(x: Part): char
    requires IsByte(x)
  {
    match x
    case Raw(c) => c
    case Letter(c) => LetterCode(c) as char
    case Other(c) => c
    case Line(_) => 10 as char
    case Code(ds) => CodeValue(ds) as char
  }

  /** The part is read as such, before the character `next`. */
  predicate PartOk(x: Part, del: char, next: char) {
    match x
    case Raw(c) => c != del && c != '\\' && !LineEnd(c)
    case Letter(c) => c in "abfnrtv"
    case Other(c) => c !in "abfnrtv" && !Digit(c) && !LineEnd(c)
    case Line(nl) =>
      || (|nl| == 1 && LineEnd(nl[0]) && (LineEnd(next) ==> next == nl[0]))
      || (|nl| == 2 && LineEnd(nl[0]) && LineEnd(nl[1]) && nl[0] != nl[1])
    case Code(ds) => 1 <= |ds| <= 3 && (forall c :: c in ds ==> Digit(c)) && (|ds| < 3 ==> !Digit(next))
  }

  predicate AllOk(xs: seq<Part>, del: char) {
    xs == [] || (PartOk(xs[0], del, (LiteralText(xs[1..]) + [del])[0]) && AllOk(xs[1..], del))
  }

  function LiteralText(xs: seq<Part>): string { if xs == [] then [] else PartText(xs[0]) + LiteralText(xs[1..]) }

  /** The string that a literal stands for. */
  function Meant(xs: seq<Part>): string
    requires forall x :: x in xs ==> IsByte(x)
  {
    if xs == [] then [] else [PartChar(xs[0])] + Meant(xs[1..])
  }

  function Lines(xs: seq<Part>): nat { if xs == [] then 0 else (if xs[0].Line? then 1 else 0) + Lines(xs[1..]) }

  lemma CodeNext(ds: string, i: nat)
    requires i < |ds|
    ensures CodeValue(ds[..i + 1]) == 10 * CodeValue(ds[..i]) + (ds[i] as int - 48)
  {
    assert ds[..i + 1][..i] == ds[..i];
  }

  lemma {:induction false} DecimalReads(ds: string, t: string, i: nat)
    requires i <= |ds| <= 3 && (forall c :: c in ds ==> Digit(c)) && (|ds| < 3 && t != [] ==> !Digit(t[0]))
    requires CodeValue(ds[..i]) >= 0
    ensures CodeValue(ds) >= 0 && Decimal(ds + t, i, CodeValue(ds[..i])) == (CodeValue(ds), |ds|)
    decreases |ds| - i
  {
    hide CodeValue;
    var w := ds + t;
    if i < |ds| {
      assert w[i] == ds[i] && ds[i] in ds;
      CodeNext(ds, i);
      DecimalReads(ds, t, i + 1);
    } else {
      assert ds[..i] == ds;
      assert |w| > i ==> w[i] == t[0];
    }
  }

  /** One part is read as its character, or refused if its code is no byte. */
  lemma PartReads(x: Part, del: char, t: string)
    requires t != [] && PartOk(x, del, t[0]) && (del == '"' || del == '\'')
    ensures var w := PartText(x) + t;
            && w[0] != del && !LineEnd(w[0])
            && One(w) ==
               if IsByte(x) then Piece(PartChar(x), |PartText(x)|, if x.Line? then 1 else 0) else Wrong(TooLarge)
  {
    hide Decimal, CodeValue;
    var w := PartText(x) + t;
    if !x.Raw? {
      assert w[1..] == PartText(x)[1..] + t;
      if x.Code? {
        assert w[1..] == x.ds + t;
        assert CodeValue(x.ds[..0]) == 0 by { CodeNothing(x.ds); }
        DecimalReads(x.ds, t, 0);
        assert x.ds[0] in x.ds;
      } else if x.Line? {
        assert w[1..] == x.nl + t;
      }
    }
  }

  lemma CodeNothing(ds: string)
    ensures CodeValue(ds[..0]) == 0
  {
  }

  /**
    A literal is read as the string that its parts stand for, with its line ends counted; what follows the delimiter is
    left.
   */
  lemma {:induction false} LiteralReads(xs: seq<Part>, del: char, tail: string)
    requires AllOk(xs, del) && (del == '"' || del == '\'') && forall x :: x in xs ==> IsByte(x)
    ensures ReadFrom(LiteralText(xs) + [del] + tail, del) == Text(Meant(xs), tail, Lines(xs))
    decreases |xs|
  {
    hide One, PartText, PartChar, PartOk, IsByte;
    var w := LiteralText(xs) + [del] + tail;
    ReadEnds(w, del);
    if xs == [] {
      assert w == [del] + tail;
    } else {
      var t := LiteralText(xs[1..]) + [del] + tail;
      assert w == PartText(xs[0]) + t;
      assert t[0] == (LiteralText(xs[1..]) + [del])[0];
      assert xs[0] in xs && forall x :: x in xs[1..] ==> x in xs;
      PartReads(xs[0], del, t);
      ReadOne(w, del);
      assert w[|PartText(xs[0])|..] == t;
      LiteralReads(xs[1..], del, tail);
    }
  }

  /** A code beyond that of a byte is an error. */
  lemma CodeTooLarge(ds: string, del: char, t: string)
    requires t != [] && PartOk(Code(ds), del, t[0]) && (del == '"' || del == '\'') && CodeValue(ds) > 255
    ensures ReadFrom("\\" + ds + t, del) == TooLarge
  {
    hide One, CodeValue, PartOk;
    PartReads(Code(ds), del, t);
    assert PartText(Code(ds)) == "\\" + ds;
    ReadOne("\\" + ds + t, del);
  }
}
