/** The backtracking matcher of `lstrlib.c`, which records captures in place and undoes them when a match fails. */
module Matcher {
  import opened Common
  import opened Patterns

  /** What `match` returns: no match, the end of the match, or the error it raises. */
  datatype Ret = Null | At(e: nat) | Failed(err: Patterns.Error)

  /** The result agrees with the pattern's; after a failure the captures are as before. */
  predicate Agrees(m: Res, r: Ret, before: seq<Cap>, after: seq<Cap>) {
    match m
    case Fail => r == Null && after == before
    case Done(e, caps) => r == At(e) && after == caps
    case Raise(err) => r == Failed(err)
  }

  /** A case of `match` returns, or goes on with the rest of the pattern (`goto init`). */
  datatype Next = Return(r: Ret) | Goto(s: nat, p: nat)

  predicate GoesOn(src: string, pat: string, s: nat, p: nat, n: Next, before: seq<Cap>, after: seq<Cap>)
    requires s <= |src| && p <= |pat|
  {
    match n
    case Return(r) => Agrees(MatchFrom(src, pat, s, p, before), r, before, after)
    case Goto(s', p') =>
      && s' <= |src| && p < p' <= |pat| && after == before
      && MatchFrom(src, pat, s, p, before) == MatchFrom(src, pat, s', p', before)
  }

  class MatchState {
    const src: string
    const pat: string
    var level: nat
    const capture: array<Cap>

    predicate Valid()
      reads this
    {
      capture.Length == MAXCAPTURES && level <= MAXCAPTURES
    }

    function Caps(): seq<Cap>
      reads this, capture
      requires Valid()
    {
      capture[..level]
    }

    constructor (s: string, p: string)
      ensures Valid() && fresh(capture) && src == s && pat == p && Caps() == []
    {
      src, pat, level := s, p, 0;
      capture := new Cap[MAXCAPTURES](_ => Cap(0, 0));
    }

    // Classes

    /** `classend`. */
    method FindClassEnd(first: nat) returns (r: Option<nat>)
      requires C(pat, first) != '\0'
      ensures r == ClassEnd(pat, first)
    {
      var p: nat := first + 1;
      if C(pat, first) == ESC {
        if C(pat, p) == '\0' { return None; }
        return Some(p + 1);
      } else if C(pat, first) == '[' {
        if C(pat, p) == '^' { p := p + 1; }
        ghost var start := p;
        var more := true;
        while more
          invariant p <= |pat| + 1 && (more ==> SetEnd(pat, start) == SetEnd(pat, p))
          invariant !more ==> C(pat, p) == ']' && SetEnd(pat, start) == Some(p + 1)
          decreases more, |pat| + 1 - p
        {
          if C(pat, p) == '\0' { return None; }
          p := p + 1;
          if C(pat, p - 1) == ESC && C(pat, p) != '\0' { p := p + 1; }
          more := C(pat, p) != ']';
        }
        return Some(p + 1);
      }
      r := Some(p);
    }

    /** `matchbracketclass`. */
    method MatchBracketClass(c: char, first: nat, ec: nat) returns (r: bool)
      ensures r == MatchBracket(pat, first, ec, c)
    {
      var sig, p := true, first;
      if C(pat, p + 1) == '^' {
        sig, p := false, p + 1;
      }
      ghost var start := p;
      p := p + 1;
      while p < ec
        invariant p > start && InSet(pat, start, ec, c) == InSet(pat, p - 1, ec, c)
        decreases ec - p
      {
        if C(pat, p) == ESC {
          p := p + 1;
          if MatchClass(c, C(pat, p)) { return sig; }
        } else if C(pat, p + 1) == '-' && p + 2 < ec {
          p := p + 2;
          if C(pat, p - 2) <= c <= C(pat, p) { return sig; }
        } else if C(pat, p) == c {
          return sig;
        }
        p := p + 1;
      }
      r := !sig;
    }

    /** `singlematch`. */
    method SingleMatch(c: char, p: nat, ep: nat) returns (r: bool)
      requires ep > p
      ensures r == Single(pat, p, ep, c)
    {
      match C(pat, p)
      case '.' => r := true;
      case '%' => r := MatchClass(c, C(pat, p + 1));
      case '[' => r := MatchBracketClass(c, p, ep - 1);
      case x => r := x == c;
    }

    /** `matchbalance`. */
    method MatchBalance(first: nat, p: nat) returns (r: Ret)
      requires first <= |src|
      ensures if C(pat, p) == '\0' || C(pat, p + 1) == '\0' then r == Failed(Unbalanced)
              else var e := Balance(src, first, C(pat, p), C(pat, p + 1)); r == if e == None then Null else At(e.value)
    {
      if C(pat, p) == '\0' || C(pat, p + 1) == '\0' { return Failed(Unbalanced); }
      if C(src, first) != C(pat, p) || first >= |src| { return Null; }
      var b, e, cont, s: nat := C(pat, p), C(pat, p + 1), 1, first + 1;
      while s < |src|
        invariant cont >= 1 && s <= |src| && Balance(src, first, b, e) == BalanceFrom(src, s, b, e, cont)
      {
        if src[s] == e {
          cont := cont - 1;
          if cont == 0 { return At(s + 1); }
        } else if src[s] == b {
          cont := cont + 1;
        }
        s := s + 1;
      }
      r := Null;
    }

    // Captures

    /** `capture_to_close`. */
    method CaptureToClose() returns (r: Option<nat>)
      requires Valid()
      ensures r == ToClose(Caps())
    {
      var l: int := level - 1;
      assert Caps()[..level] == Caps();
      while l >= 0
        invariant -1 <= l < level && ToClose(Caps()) == ToClose(Caps()[..l + 1])
      {
        assert Caps()[..l + 1][..l] == Caps()[..l];
        if capture[l].len == UNFINISHED { return Some(l); }
        l := l - 1;
      }
      r := None;
    }

    /** `match_capture`. */
    method MatchCapture(s: nat, x: char) returns (r: Ret)
      requires Valid() && s <= |src|
      ensures var l := CheckCapture(Caps(), x);
              r == if l == None then Failed(InvalidCaptureIndex)
                   else if SameText(src, s, Caps()[l.value]) then At(s + Caps()[l.value].len) else Null
    {
      var l := CheckCapture(Caps(), x);
      if l == None { return Failed(InvalidCaptureIndex); }
      var c := capture[l.value];
      if SameText(src, s, c) { return At(s + c.len); }
      r := Null;
    }

    /** `start_capture`: the capture is forgotten if the rest of the pattern fails. */
    method StartCapture(s: nat, p: nat, what: int) returns (r: Ret)
      requires Valid() && s <= |src| && p <= |pat|
      modifies this`level, capture
      ensures Valid()
      ensures if old(level) >= MAXCAPTURES then r == Failed(TooManyCaptures)
              else Agrees(MatchFrom(src, pat, s, p, old(Caps()) + [Cap(s, what)]), r, old(Caps()), Caps())
      decreases |pat| - p, 5
    {
      if level >= MAXCAPTURES { return Failed(TooManyCaptures); }
      ghost var before := Caps();
      capture[level] := Cap(s, what);
      level := level + 1;
      assert Caps() == before + [Cap(s, what)];
      r := Match(s, p);
      if r == Null {
        assert Caps() == before + [Cap(s, what)];
        level := level - 1;
        assert Caps() == before;
      }
    }

    /** `end_capture`: the capture is open again if the rest of the pattern fails. */
    method EndCapture(s: nat, p: nat) returns (r: Ret)
      requires Valid() && s <= |src| && p <= |pat|
      modifies this`level, capture
      ensures Valid()
      ensures var l := ToClose(old(Caps()));
              if l == None then r == Failed(InvalidPatternCapture)
              else
                var c := old(Caps())[l.value];
                Agrees(MatchFrom(src, pat, s, p, old(Caps())[l.value := c.(len := s - c.init)]), r, old(Caps()), Caps())
      decreases |pat| - p, 5
    {
      var l := CaptureToClose();
      if l == None { return Failed(InvalidPatternCapture); }
      ghost var before := Caps();
      ghost var closed := before[l.value := before[l.value].(len := s - before[l.value].init)];
      capture[l.value] := capture[l.value].(len := s - capture[l.value].init);
      assert Caps() == closed;
      r := Match(s, p);
      if r == Null {
        assert Caps() == closed;
        capture[l.value] := capture[l.value].(len := UNFINISHED);
        assert Caps() == before;
      }
    }

    // Repetitions

    /** `max_expand`: as many repetitions as possible first. */
    method MaxExpand(s: nat, p: nat, ep: nat) returns (r: Ret)
      requires Valid() && s <= |src| && p < ep < |pat|
      modifies this`level, capture
      ensures Valid() && Agrees(Most(src, pat, s, ep + 1, old(Caps()), 0, Reps(src, s, pat, p, ep)), r,
                                old(Caps()), Caps())
      decreases |pat| - ep - 1, 6
    {
      hide MatchFrom, Single;
      ghost var before := Caps();
      var i: int := 0;
      var m := false;
      if s + i < |src| { m := SingleMatch(src[s + i], p, ep); }
      while s + i < |src| && m
        invariant Valid() && Caps() == before && 0 <= i && s + i <= |src|
                  && Reps(src, s, pat, p, ep) == i + Reps(src, s + i, pat, p, ep)
        invariant s + i < |src| ==> m == Single(pat, p, ep, src[s + i])
        decreases |src| - i
      {
        i := i + 1;
        if s + i < |src| { m := SingleMatch(src[s + i], p, ep); }
      }
      ghost var n := i;
      while i >= 0
        invariant Valid() && -1 <= i <= n && Caps() == before
        invariant i >= 0 ==> Most(src, pat, s, ep + 1, before, 0, n) == Most(src, pat, s, ep + 1, before, 0, i)
        invariant i < 0 ==> Most(src, pat, s, ep + 1, before, 0, n) == Fail
        decreases i + 1
      {
        r := Match(s + i, ep + 1);
        if r != Null { return; }
        i := i - 1;
      }
      r := Null;
    }

    /** `min_expand`: as few repetitions as possible first. */
    method MinExpand(first: nat, p: nat, ep: nat) returns (r: Ret)
      requires Valid() && first <= |src| && p < ep < |pat|
      modifies this`level, capture
      ensures Valid() && Agrees(Fewest(src, pat, first, ep + 1, old(Caps()), 0, Reps(src, first, pat, p, ep)), r,
                                old(Caps()), Caps())
      decreases |pat| - ep - 1, 6
    {
      hide MatchFrom, Single;
      ghost var before := Caps();
      ghost var n := Reps(src, first, pat, p, ep);
      var s := first;
      while true
        invariant Valid() && Caps() == before && first <= s <= |src| && n == s - first + Reps(src, s, pat, p, ep)
        invariant Fewest(src, pat, first, ep + 1, before, 0, n) == Fewest(src, pat, first, ep + 1, before, s - first, n)
        decreases |src| - s
      {
        r := Match(s, ep + 1);
        if r != Null { return; }
        if s >= |src| { return; }
        var m := SingleMatch(src[s], p, ep);
        if !m { return; }
        s := s + 1;
      }
    }

    // The matcher

    /** The cases `%b`, `%f` and `%1` to `%9` of `match`. */
    method Escape(s: nat, p: nat) returns (n: Next)
      requires Valid() && s <= |src| && p <= |pat| && C(pat, p) == ESC
               && (C(pat, p + 1) in "bf" || IsDigit(C(pat, p + 1)))
      ensures GoesOn(src, pat, s, p, n, Caps(), Caps())
    {
      hide Single, ClassEnd, Balance, MatchBracket, ToClose, CheckCapture, Reps, ItemStep;
      if C(pat, p + 1) == 'b' {
        var e := MatchBalance(s, p + 2);
        return if e.At? then Goto(e.e, p + 4) else Return(e);
      } else if C(pat, p + 1) == 'f' {
        if C(pat, p + 2) != '[' { return Return(Failed(MissingAfterFrontier)); }
        var ep := FindClassEnd(p + 2);
        if ep == None { return Return(Failed(MissingBracket)); }
        var previous := if s == 0 then '\0' else src[s - 1];
        var m := MatchBracketClass(previous, p + 2, ep.value - 1);
        if m { return Return(Null); }
        m := MatchBracketClass(C(src, s), p + 2, ep.value - 1);
        n := if m then Goto(s, ep.value) else Return(Null);
      } else {
        var e := MatchCapture(s, C(pat, p + 1));
        return if e.At? then Goto(e.e, p + 2) else Return(e);
      }
    }

    /** The default case of `match`: a single-character class, with or without repetition. */
    method Item(s: nat, p: nat) returns (n: Next)
      requires Valid() && s <= |src| && p <= |pat| && C(pat, p) != '\0'
               && StepAt(src, pat, s, p, Caps()) == ItemStep(src, pat, s, p)
      modifies this`level, capture
      ensures Valid() && GoesOn(src, pat, s, p, n, old(Caps()), Caps())
      decreases |pat| - p, 3
    {
      hide Single, ClassEnd, Reps, StepAt;
      ghost var before := Caps();
      var e := FindClassEnd(p);
      if e == None { return Return(Failed(ClassError(pat, p))); }
      var ep := e.value;
      var m := false;
      if s < |src| { m := SingleMatch(src[s], p, ep); }
      OneMore(src, pat, s, p, ep);
      MostOne(src, pat, s, ep, before);
      if ep < |pat| { MostOne(src, pat, s, ep + 1, before); }
      if C(pat, ep) == '?' {
        if m {
          var r := Match(s + 1, ep + 1);
          if r != Null { return Return(r); }
        }
        n := Goto(s, ep + 1);
      } else if C(pat, ep) == '*' {
        var r := MaxExpand(s, p, ep);
        n := Return(r);
      } else if C(pat, ep) == '+' {
        if !m { return Return(Null); }
        MostShift(src, pat, s, ep + 1, before, 1, Reps(src, s, pat, p, ep));
        var r := MaxExpand(s + 1, p, ep);
        n := Return(r);
      } else if C(pat, ep) == '-' {
        var r := MinExpand(s, p, ep);
        n := Return(r);
      } else {
        n := if m then Goto(s + 1, ep) else Return(Null);
      }
    }

    /** `match`: the result is that of the first way to match. */
    method Match(first: nat, start: nat) returns (r: Ret)
      requires Valid() && first <= |src| && start <= |pat|
      modifies this`level, capture
      ensures Valid() && Agrees(MatchFrom(src, pat, first, start, old(Caps())), r, old(Caps()), Caps())
      decreases |pat| - start, 4
    {
      hide ItemStep, EscStep;
      ghost var before := Caps();
      var s: nat, p: nat := first, start;
      while true
        invariant Valid() && Caps() == before && s <= |src| && start <= p <= |pat|
        invariant MatchFrom(src, pat, s, p, before) == MatchFrom(src, pat, first, start, before)
        decreases |pat| - p
      {
        var c := C(pat, p);
        if c == '(' {
          if C(pat, p + 1) == ')' {
            r := StartCapture(s, p + 2, POSITION);
          } else {
            r := StartCapture(s, p + 1, UNFINISHED);
          }
          return;
        } else if c == ')' {
          r := EndCapture(s, p + 1);
          return;
        } else if c == '\0' {
          return At(s);
        } else if c == '$' && C(pat, p + 1) == '\0' {
          return if s == |src| then At(s) else Null;
        }
        var n: Next;
        if c == ESC && (C(pat, p + 1) in "bf" || IsDigit(C(pat, p + 1))) {
          n := Escape(s, p);
        } else {
          ItemHere(src, pat, s, p, before);
          n := Item(s, p);
        }
        match n
        case Return(q) => return q;
        case Goto(s', p') => s, p := s', p';
      }
    }
  }

  /** In all other cases there is a single-character class. */
  lemma ItemHere(src: string, pat: string, s: nat, p: nat, caps: seq<Cap>)
    requires s <= |src| && p <= |pat| && C(pat, p) !in "()" && C(pat, p) != '\0'
             && !(C(pat, p) == '$' && C(pat, p + 1) == '\0')
    requires C(pat, p) == ESC ==> C(pat, p + 1) !in "bf" && !IsDigit(C(pat, p + 1))
    ensures StepAt(src, pat, s, p, caps) == ItemStep(src, pat, s, p)
  {
  }

  lemma MostOne(src: string, pat: string, s: nat, ep: nat, caps: seq<Cap>)
    requires s <= |src| && ep <= |pat|
    ensures Most(src, pat, s, ep, caps, 0, 0) == MatchFrom(src, pat, s, ep, caps)
    ensures s < |src| ==> Most(src, pat, s, ep, caps, 1, 1) == MatchFrom(src, pat, s + 1, ep, caps)
    ensures s < |src| ==>
              Most(src, pat, s, ep, caps, 0, 1) ==
                if MatchFrom(src, pat, s + 1, ep, caps) != Fail then MatchFrom(src, pat, s + 1, ep, caps)
                else MatchFrom(src, pat, s, ep, caps)
  {
  }

  lemma OneMore(src: string, pat: string, s: nat, p: nat, ep: nat)
    ensures Reps(src, s, pat, p, ep) ==
              if s < |src| && Single(pat, p, ep, src[s]) then 1 + Reps(src, s + 1, pat, p, ep) else 0
  {
  }
}
