/** Lua patterns: what a pattern matches, and in which order its ways to match are tried (`lstrlib.c`). */
module Patterns {
  import opened Common

  const ESC := '%'
  const MAXCAPTURES: nat := 32
  const UNFINISHED: int := -1
  const POSITION: int := -2

  /** A capture: where it begins, and its length or one of the two marks. */
  datatype Cap = Cap(init: nat, len: int)

  datatype Error =
    | InvalidCaptureIndex | InvalidPatternCapture | EndsWithPercent | MissingBracket
    | Unbalanced | MissingAfterFrontier | TooManyCaptures

  /** The pattern fails, or matches up to `e` with the captures `caps`, or raises an error. */
  datatype Res = Fail | Done(e: nat, caps: seq<Cap>) | Raise(err: Error)

  /** A character of a C string: a zero follows the last one. */
  function C(p: string, i: nat): char { if i < |p| then p[i] else '\0' }

  // Character classes

  predicate IsLower(c: char) { 'a' <= c <= 'z' }
  predicate IsUpper(c: char) { 'A' <= c <= 'Z' }
  predicate IsDigit(c: char) { '0' <= c <= '9' }
  predicate IsAlpha(c: char) { IsLower(c) || IsUpper(c) }
  predicate IsSpace(c: char) { c == ' ' || '\t' <= c <= '\r' }
  predicate IsCntrl(c: char) { c < ' ' || c as int == 127 }
  predicate IsPunct(c: char) { ' ' < c && (c as int) < 127 && !IsAlpha(c) && !IsDigit(c) }
  predicate IsXdigit(c: char) { IsDigit(c) || 'a' <= c <= 'f' || 'A' <= c <= 'F' }

  function ToLower(c: char): char { if IsUpper(c) then c + ('a' - 'A') else c }

  /** `match_class`: an upper-case letter stands for the complement of the class. */
  predicate MatchClass(c: char, cl: char) {
    var l := ToLower(cl);
    if l !in "acdlpsuwxz" then cl == c
    else
      IsLower(cl) ==
        match l {
          case 'a' => IsAlpha(c)
          case 'c' => IsCntrl(c)
          case 'd' => IsDigit(c)
          case 'l' => IsLower(c)
          case 'p' => IsPunct(c)
          case 's' => IsSpace(c)
          case 'u' => IsUpper(c)
          case 'w' => IsAlpha(c) || IsDigit(c)
          case 'x' => IsXdigit(c)
          case _ => c == '\0'
        }
  }

  /** The loop of `matchbracketclass`, with `p` before the next element of the set. */
  predicate InSet(pat: string, p: nat, ec: nat, c: char)
    decreases ec - p
  {
    var q := p + 1;
    if q >= ec then false
    else if C(pat, q) == ESC then MatchClass(c, C(pat, q + 1)) || InSet(pat, q + 1, ec, c)
    else if C(pat, q + 1) == '-' && q + 2 < ec then C(pat, q) <= c <= C(pat, q + 2) || InSet(pat, q + 2, ec, c)
    else C(pat, q) == c || InSet(pat, q, ec, c)
  }

  /** `matchbracketclass`, for the set between `p` and `ec`. */
  predicate MatchBracket(pat: string, p: nat, ec: nat, c: char) {
    if C(pat, p + 1) == '^' then !InSet(pat, p + 1, ec, c) else InSet(pat, p, ec, c)
  }

  /** `singlematch`. */
  predicate Single(pat: string, p: nat, ep: nat, c: char) {
    match C(pat, p)
    case '.' => true
    case '%' => MatchClass(c, C(pat, p + 1))
    case '[' => ep > 0 && MatchBracket(pat, p, ep - 1, c)
    case x => x == c
  }

  /** The end of a set, from inside it. */
  function SetEnd(pat: string, p: nat): (r: Option<nat>)
    ensures r.Some? ==> p + 2 <= r.value <= |pat|
    decreases |pat| - p
  {
    if C(pat, p) == '\0' then None
    else
      var q := if C(pat, p) == ESC && C(pat, p + 1) != '\0' then p + 2 else p + 1;
      if C(pat, q) == ']' then Some(q + 1) else SetEnd(pat, q)
  }

  /** `classend`: the end of a single-character class. */
  function ClassEnd(pat: string, p: nat): (r: Option<nat>)
    requires C(pat, p) != '\0'
    ensures r.Some? ==> p < r.value <= |pat|
  {
    match C(pat, p)
    case '%' => if C(pat, p + 1) == '\0' then None else Some(p + 2)
    case '[' => SetEnd(pat, if C(pat, p + 1) == '^' then p + 2 else p + 1)
    case _ => Some(p + 1)
  }

  function ClassError(pat: string, p: nat): Error { if C(pat, p) == ESC then EndsWithPercent else MissingBracket }

  // Captures

  /** `capture_to_close`: the last capture that is still open. */
  function ToClose(caps: seq<Cap>): (r: Option<nat>)
    ensures r.Some? ==> r.value < |caps| && caps[r.value].len == UNFINISHED
                        && forall i :: r.value < i < |caps| ==> caps[i].len != UNFINISHED
    ensures r == None ==> forall i :: 0 <= i < |caps| ==> caps[i].len != UNFINISHED
  {
    if caps == [] then None
    else if caps[|caps| - 1].len == UNFINISHED then Some(|caps| - 1)
    else ToClose(caps[..|caps| - 1])
  }

  /** `check_capture`. */
  function CheckCapture(caps: seq<Cap>, l: char): Option<nat> {
    var i := l as int - '1' as int;
    if i < 0 || i >= |caps| || caps[i].len == UNFINISHED then None else Some(i)
  }

  /** The text of a capture occurs at `s`; a position capture has none. */
  predicate SameText(src: string, s: nat, c: Cap) {
    c.len >= 0 && s + c.len <= |src| && c.init + c.len <= |src| && src[c.init..c.init + c.len] == src[s..s + c.len]
  }

  /** The loop of `matchbalance`, with `cont` openings to be closed before `s`. */
  function BalanceFrom(src: string, s: nat, b: char, e: char, cont: nat): (r: Option<nat>)
    ensures r.Some? ==> s < r.value <= |src|
    decreases |src| - s
  {
    if s >= |src| then None
    else if src[s] == e then if cont <= 1 then Some(s + 1) else BalanceFrom(src, s + 1, b, e, cont - 1)
    else BalanceFrom(src, s + 1, b, e, if src[s] == b then cont + 1 else cont)
  }

  function Balance(src: string, s: nat, b: char, e: char): (r: Option<nat>)
    ensures r.Some? ==> s < r.value <= |src|
  {
    if C(src, s) != b || s >= |src| then None else BalanceFrom(src, s + 1, b, e, 1)
  }

  /** How often the class can be repeated from `s` on. */
  function Reps(src: string, s: nat, pat: string, p: nat, ep: nat): (n: nat)
    ensures s <= |src| ==> s + n <= |src|
    ensures forall i :: s <= i < s + n && i < |src| ==> Single(pat, p, ep, src[i])
    ensures s + n < |src| ==> !Single(pat, p, ep, src[s + n])
    decreases |src| - s
  {
    if s < |src| && Single(pat, p, ep, src[s]) then 1 + Reps(src, s + 1, pat, p, ep) else 0
  }

  // What comes next in a pattern

  /** One step of a pattern: an end, an error, a step that leaves no choice, or a class with a number of repetitions. */
  datatype Step =
    | End
    | Error(err: Error)
    | Stuck
    | Go(s: nat, p: nat, caps: seq<Cap>)
    | Repeat(lo: nat, hi: nat, fewest: bool, ep: nat)

  /** The class at `p`, and how often it may be repeated. */
  function ItemStep(src: string, pat: string, s: nat, p: nat): (r: Step)
    requires C(pat, p) != '\0' && s <= |src|
    ensures r.Repeat? ==> p < r.ep <= |pat| && s + r.hi <= |src|
    ensures !r.End? && !r.Go?
  {
    var e := ClassEnd(pat, p);
    if e == None then Error(ClassError(pat, p))
    else
      var ep := e.value;
      var n := Reps(src, s, pat, p, ep);
      match C(pat, ep)
      case '?' => Repeat(0, if n >= 1 then 1 else 0, false, ep + 1)
      case '*' => Repeat(0, n, false, ep + 1)
      case '+' => if n >= 1 then Repeat(1, n, false, ep + 1) else Stuck
      case '-' => Repeat(0, n, true, ep + 1)
      case _ => if n >= 1 then Repeat(1, 1, false, ep) else Stuck
  }

  function StepAt(src: string, pat: string, s: nat, p: nat, caps: seq<Cap>): (r: Step)
    requires s <= |src| && p <= |pat|
    ensures r.Go? ==> r.s <= |src| && p < r.p <= |pat|
    ensures r.Repeat? ==> p < r.ep <= |pat| && s + r.hi <= |src|
  {
    match C(pat, p)
    case '\0' => End
    case '(' =>
      if |caps| >= MAXCAPTURES then Error(TooManyCaptures)
      else if C(pat, p + 1) == ')' then Go(s, p + 2, caps + [Cap(s, POSITION)])
      else Go(s, p + 1, caps + [Cap(s, UNFINISHED)])
    case ')' =>
      var l := ToClose(caps);
      if l == None then Error(InvalidPatternCapture)
      else Go(s, p + 1, caps[l.value := caps[l.value].(len := s - caps[l.value].init)])
    case '$' => if C(pat, p + 1) == '\0' then (if s == |src| then End else Stuck) else ItemStep(src, pat, s, p)
    case '%' => EscStep(src, pat, s, p, caps)
    case _ => ItemStep(src, pat, s, p)
  }

  /** The steps that begin with `%`. */
  function EscStep(src: string, pat: string, s: nat, p: nat, caps: seq<Cap>): (r: Step)
    requires s <= |src| && C(pat, p) == ESC
    ensures r.Go? ==> r.s <= |src| && p < r.p <= |pat|
    ensures r.Repeat? ==> p < r.ep <= |pat| && s + r.hi <= |src|
    ensures !r.End?
  {
    var x := C(pat, p + 1);
    if x == 'b' then
      if C(pat, p + 2) == '\0' || C(pat, p + 3) == '\0' then Error(Unbalanced)
      else
        var e := Balance(src, s, C(pat, p + 2), C(pat, p + 3));
        if e == None then Stuck else Go(e.value, p + 4, caps)
    else if x == 'f' then
      if C(pat, p + 2) != '[' then Error(MissingAfterFrontier)
      else
        var e := ClassEnd(pat, p + 2);
        if e == None then Error(MissingBracket)
        else if MatchBracket(pat, p + 2, e.value - 1, if s == 0 then '\0' else src[s - 1])
            || !MatchBracket(pat, p + 2, e.value - 1, C(src, s)) then Stuck
        else Go(s, e.value, caps)
    else if IsDigit(x) then
      var l := CheckCapture(caps, x);
      if l == None then Error(InvalidCaptureIndex)
      else if SameText(src, s, caps[l.value]) then Go(s + caps[l.value].len, p + 2, caps)
      else Stuck
    else ItemStep(src, pat, s, p)
  }

  // The matcher as a function

  /** The first of several numbers of repetitions with which the rest of the pattern does not fail. */
  function MatchFrom(src: string, pat: string, s: nat, p: nat, caps: seq<Cap>): Res
    requires s <= |src| && p <= |pat|
    decreases |pat| - p, 0
  {
    match StepAt(src, pat, s, p, caps)
    case End => Done(s, caps)
    case Error(err) => Raise(err)
    case Stuck => Fail
    case Go(s', p', caps') => MatchFrom(src, pat, s', p', caps')
    case Repeat(lo, hi, fewest, ep) =>
      if lo > hi then Fail
      else if fewest then Fewest(src, pat, s, ep, caps, lo, hi)
      else Most(src, pat, s, ep, caps, lo, hi)
  }

  function Most(src: string, pat: string, s: nat, ep: nat, caps: seq<Cap>, lo: nat, hi: nat): Res
    requires s + hi <= |src| && ep <= |pat| && lo <= hi
    decreases |pat| - ep, 1 + hi - lo
  {
    var r := MatchFrom(src, pat, s + hi, ep, caps);
    if r != Fail || lo == hi then r else Most(src, pat, s, ep, caps, lo, hi - 1)
  }

  function Fewest(src: string, pat: string, s: nat, ep: nat, caps: seq<Cap>, lo: nat, hi: nat): Res
    requires s + hi <= |src| && ep <= |pat| && lo <= hi
    decreases |pat| - ep, 1 + hi - lo
  {
    var r := MatchFrom(src, pat, s + lo, ep, caps);
    if r != Fail || lo == hi then r else Fewest(src, pat, s, ep, caps, lo + 1, hi)
  }

  // All ways to match

  /** Where a pattern leads with given numbers of repetitions, in the order of its classes. */
  function Follow(src: string, pat: string, s: nat, p: nat, caps: seq<Cap>, way: seq<nat>): Res
    requires s <= |src| && p <= |pat|
    decreases |pat| - p
  {
    match StepAt(src, pat, s, p, caps)
    case End => if way == [] then Done(s, caps) else Fail
    case Error(err) => if way == [] then Raise(err) else Fail
    case Stuck => Fail
    case Go(s', p', caps') => Follow(src, pat, s', p', caps', way)
    case Repeat(lo, hi, fewest, ep) =>
      if way == [] || !(lo <= way[0] <= hi) then Fail else Follow(src, pat, s + way[0], ep, caps, way[1..])
  }

  /**
    One way is tried before another: at the first class where they differ it has more repetitions, or fewer after `-`.
   */
  predicate Before(src: string, pat: string, s: nat, p: nat, caps: seq<Cap>, a: seq<nat>, b: seq<nat>)
    requires s <= |src| && p <= |pat|
    decreases |pat| - p
  {
    match StepAt(src, pat, s, p, caps)
    case Go(s', p', caps') => Before(src, pat, s', p', caps', a, b)
    case Repeat(lo, hi, fewest, ep) =>
      && a != [] && b != []
      && (if a[0] == b[0] then s + a[0] <= |src| && Before(src, pat, s + a[0], ep, caps, a[1..], b[1..])
          else if fewest then a[0] < b[0] else a[0] > b[0])
    case _ => false
  }

  /** The result of the first way that does not fail. */
  ghost predicate IsFirst(src: string, pat: string, s: nat, p: nat, caps: seq<Cap>, way: seq<nat>, r: Res)
    requires s <= |src| && p <= |pat|
  {
    && r != Fail && Follow(src, pat, s, p, caps, way) == r
    && forall b :: Follow(src, pat, s, p, caps, b) != Fail ==> b == way || Before(src, pat, s, p, caps, way, b)
  }

  ghost predicate NoWay(src: string, pat: string, s: nat, p: nat, caps: seq<Cap>)
    requires s <= |src| && p <= |pat|
  {
    forall b :: Follow(src, pat, s, p, caps, b) == Fail
  }

  /** No way to match after `j` repetitions. */
  ghost predicate NoWayAfter(src: string, pat: string, s: nat, ep: nat, caps: seq<Cap>, j: nat)
    requires ep <= |pat|
  {
    s + j <= |src| ==> NoWay(src, pat, s + j, ep, caps)
  }

  /** `r` is the result of the first way to match. */
  ghost predicate First(src: string, pat: string, s: nat, p: nat, caps: seq<Cap>, r: Res)
    requires s <= |src| && p <= |pat|
  {
    exists way :: IsFirst(src, pat, s, p, caps, way, r)
  }

  /** The matcher gives the result of the first way to match, and fails only if there is none. */
  lemma {:induction false} MatchIsFirst(src: string, pat: string, s: nat, p: nat, caps: seq<Cap>)
    requires s <= |src| && p <= |pat|
    ensures var r := MatchFrom(src, pat, s, p, caps);
            if r == Fail then NoWay(src, pat, s, p, caps) else First(src, pat, s, p, caps, r)
    decreases |pat| - p, 0
  {
    hide StepAt;
    match StepAt(src, pat, s, p, caps)
    case End => assert IsFirst(src, pat, s, p, caps, [], Done(s, caps));
    case Error(err) => assert IsFirst(src, pat, s, p, caps, [], Raise(err));
    case Stuck =>
    case Go(s', p', caps') =>
      MatchIsFirst(src, pat, s', p', caps');
      FirstGoes(src, pat, s, p, caps, MatchFrom(src, pat, s, p, caps));
    case Repeat(lo, hi, fewest, ep) =>
      if lo <= hi {
        var r := MatchFrom(src, pat, s, p, caps);
        var k: nat;
        if fewest { k := FewestFirst(src, pat, s, ep, caps, lo, hi); }
        else { k := MostFirst(src, pat, s, ep, caps, lo, hi); }
        if r == Fail { NoneHere(src, pat, s, p, caps); } else { FirstHere(src, pat, s, p, caps, k, r); }
      }
  }

  lemma FirstGoes(src: string, pat: string, s: nat, p: nat, caps: seq<Cap>, r: Res)
    requires s <= |src| && p <= |pat| && StepAt(src, pat, s, p, caps).Go?
    ensures var t := StepAt(src, pat, s, p, caps);
            && (NoWay(src, pat, t.s, t.p, t.caps) ==> NoWay(src, pat, s, p, caps))
            && (First(src, pat, t.s, t.p, t.caps, r) ==> First(src, pat, s, p, caps, r))
  {
    hide StepAt;
    var t := StepAt(src, pat, s, p, caps);
    forall b
      ensures Follow(src, pat, s, p, caps, b) == Follow(src, pat, t.s, t.p, t.caps, b)
    {
    }
    if First(src, pat, t.s, t.p, t.caps, r) {
      var way :| IsFirst(src, pat, t.s, t.p, t.caps, way, r);
      assert IsFirst(src, pat, s, p, caps, way, r);
    }
  }

  lemma NoneHere(src: string, pat: string, s: nat, p: nat, caps: seq<Cap>)
    requires s <= |src| && p <= |pat|
    requires var t := StepAt(src, pat, s, p, caps);
             t.Repeat? && forall j :: t.lo <= j <= t.hi ==> NoWayAfter(src, pat, s, t.ep, caps, j)
    ensures NoWay(src, pat, s, p, caps)
  {
    hide StepAt;
    var t := StepAt(src, pat, s, p, caps);
    forall b
      ensures Follow(src, pat, s, p, caps, b) == Fail
    {
      if b != [] && t.lo <= b[0] <= t.hi { assert NoWayAfter(src, pat, s, t.ep, caps, b[0]); }
    }
  }

  /** Among numbers of repetitions, the first that leads to a match decides. */
  lemma FirstHere(src: string, pat: string, s: nat, p: nat, caps: seq<Cap>, k: nat, r: Res)
    requires s <= |src| && p <= |pat| && r != Fail
    requires var t := StepAt(src, pat, s, p, caps);
             && t.Repeat? && t.lo <= k <= t.hi && First(src, pat, s + k, t.ep, caps, r)
             && forall j :: t.lo <= j <= t.hi && (if t.fewest then j < k else j > k) ==>
                              NoWayAfter(src, pat, s, t.ep, caps, j)
    ensures First(src, pat, s, p, caps, r)
  {
    hide StepAt;
    var t := StepAt(src, pat, s, p, caps);
    var rest :| IsFirst(src, pat, s + k, t.ep, caps, rest, r);
    var way := [k] + rest;
    assert way[1..] == rest;
    forall b | Follow(src, pat, s, p, caps, b) != Fail
      ensures b == way || Before(src, pat, s, p, caps, way, b)
    {
      assert b == [b[0]] + b[1..];
      var tried := NoWayAfter(src, pat, s, t.ep, caps, b[0]);
      assert Follow(src, pat, s + b[0], t.ep, caps, b[1..]) != Fail;
    }
    assert IsFirst(src, pat, s, p, caps, way, r);
  }

  lemma {:induction false} MostFirst(src: string, pat: string, s: nat, ep: nat, caps: seq<Cap>, lo: nat, hi: nat)
    returns (k: nat)
    requires s + hi <= |src| && ep <= |pat| && lo <= hi
    ensures lo <= k <= hi && forall j :: k < j <= hi ==> NoWayAfter(src, pat, s, ep, caps, j)
    ensures var r := Most(src, pat, s, ep, caps, lo, hi);
            if r == Fail then forall j :: lo <= j <= hi ==> NoWayAfter(src, pat, s, ep, caps, j)
            else First(src, pat, s + k, ep, caps, r)
    decreases |pat| - ep, 1 + hi - lo
  {
    hide StepAt, First, NoWay;
    k := hi;
    MatchIsFirst(src, pat, s + hi, ep, caps);
    if MatchFrom(src, pat, s + hi, ep, caps) == Fail && lo < hi {
      k := MostFirst(src, pat, s, ep, caps, lo, hi - 1);
    }
  }

  lemma {:induction false} FewestFirst(src: string, pat: string, s: nat, ep: nat, caps: seq<Cap>, lo: nat, hi: nat)
    returns (k: nat)
    requires s + hi <= |src| && ep <= |pat| && lo <= hi
    ensures lo <= k <= hi && forall j :: lo <= j < k ==> NoWayAfter(src, pat, s, ep, caps, j)
    ensures var r := Fewest(src, pat, s, ep, caps, lo, hi);
            if r == Fail then forall j :: lo <= j <= hi ==> NoWayAfter(src, pat, s, ep, caps, j)
            else First(src, pat, s + k, ep, caps, r)
    decreases |pat| - ep, 1 + hi - lo
  {
    hide StepAt, First, NoWay;
    k := lo;
    MatchIsFirst(src, pat, s + lo, ep, caps);
    if MatchFrom(src, pat, s + lo, ep, caps) == Fail && lo < hi {
      k := FewestFirst(src, pat, s, ep, caps, lo + 1, hi);
    }
  }

  /** Of two ways that match, one is tried first. */
  lemma {:induction false} BeforeDecides(src: string, pat: string, s: nat, p: nat, caps: seq<Cap>, a: seq<nat>,
                                         b: seq<nat>)
    requires s <= |src| && p <= |pat| && Follow(src, pat, s, p, caps, a) != Fail
             && Follow(src, pat, s, p, caps, b) != Fail && a != b
    ensures Before(src, pat, s, p, caps, a, b) != Before(src, pat, s, p, caps, b, a)
    decreases |pat| - p
  {
    hide StepAt;
    match StepAt(src, pat, s, p, caps)
    case Go(s', p', caps') => BeforeDecides(src, pat, s', p', caps', a, b);
    case Repeat(lo, hi, fewest, ep) =>
      assert a == [a[0]] + a[1..] && b == [b[0]] + b[1..];
      if a[0] == b[0] { BeforeDecides(src, pat, s + a[0], ep, caps, a[1..], b[1..]); }
    case _ =>
  }

  /** Fewer repetitions counted from further on are the same. */
  lemma {:induction false} MostShift(src: string, pat: string, s: nat, ep: nat, caps: seq<Cap>, lo: nat, hi: nat)
    requires s + hi <= |src| && ep <= |pat| && lo <= hi
    ensures Most(src, pat, s, ep, caps, lo, hi) == Most(src, pat, s + lo, ep, caps, 0, hi - lo)
    decreases hi
  {
    if lo < hi { MostShift(src, pat, s, ep, caps, lo, hi - 1); }
  }
}
