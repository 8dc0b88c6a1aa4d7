/** `string.find`: a plain search where the pattern looks plain, the matcher elsewhere (`lstrlib.c`). */
module StringFind {
  import opened Common
  import opened Patterns
  import opened Matcher

  const SPECIALS := "^$*+?.([%-"

  /** What is found: where it begins and ends, and the captures; or nothing, or an error is raised. */
  datatype Found = FoundAt(s: nat, e: nat, caps: seq<Cap>) | NotFound | FindError(err: Patterns.Error)

  predicate Occurs(src: string, s: nat, w: string) { s + |w| <= |src| && src[s..s + |w|] == w }

  /** The first occurrence from `s` on. */
  function FirstOccurrence(src: string, s: nat, w: string): (r: Option<nat>)
    requires s <= |src|
    ensures r.Some? ==> s <= r.value && Occurs(src, r.value, w) && forall i :: s <= i < r.value ==> !Occurs(src, i, w)
    ensures r == None ==> forall i :: s <= i <= |src| ==> !Occurs(src, i, w)
    decreases |src| - s
  {
    if Occurs(src, s, w) then Some(s) else if s < |src| then FirstOccurrence(src, s + 1, w) else None
  }

  function PlainFind(src: string, s: nat, pat: string): Found
    requires s <= |src|
  {
    var r := FirstOccurrence(src, s, pat);
    if r == None then NotFound else FoundAt(r.value, r.value + |pat|, [])
  }

  /** The first place from `s` on where the pattern does not fail. */
  function PatternFind(src: string, pat: string, p0: nat, s: nat, anchor: bool): Found
    requires s <= |src| && p0 <= |pat|
    decreases |src| - s
  {
    match MatchFrom(src, pat, s, p0, [])
    case Done(e, caps) => FoundAt(s, e, caps)
    case Raise(err) => FindError(err)
    case Fail => if s < |src| && !anchor then PatternFind(src, pat, p0, s + 1, anchor) else NotFound
  }

  /** The length of a C string. */
  function Strlen(p: string, i: nat): (n: nat)
    requires i <= |p|
    ensures i <= n <= |p| && (n < |p| ==> p[n] == '\0') && forall k :: i <= k < n ==> p[k] != '\0'
    decreases |p| - i
  {
    if C(p, i) == '\0' then i else Strlen(p, i + 1)
  }

  /** `strpbrk` finds no special character: it looks no further than the first zero. */
  predicate LooksPlain(pat: string) { forall i :: 0 <= i < Strlen(pat, 0) ==> pat[i] !in SPECIALS }

  /** `posrelat`, and the place where the search begins. */
  function Start(pos: int, l: nat): (init: nat)
    ensures init <= l
    ensures 1 <= pos <= l + 1 ==> init == pos - 1
    ensures pos < 0 && pos + l >= 0 ==> init == l + pos
  {
    var p := if pos < 0 then pos + l + 1 else pos;
    var i := (if p >= 0 then p else 0) - 1;
    if i < 0 then 0 else if i > l then l else i
  }

  /** `str_find_aux`; `find` tells `find` from `match`. */
  function FindAux(src: string, pat: string, pos: int, plain: bool, find: bool): Found {
    var init := Start(pos, |src|);
    if find && (plain || LooksPlain(pat)) then PlainFind(src, init, pat)
    else PatternFind(src, pat, if C(pat, 0) == '^' then 1 else 0, init, C(pat, 0) == '^')
  }

  // What is found, and where

  /** The first place from `a` on where the pattern does not fail. */
  predicate FirstPlace(src: string, pat: string, p0: nat, a: nat, s: nat)
    requires p0 <= |pat|
  {
    && a <= s <= |src| && MatchFrom(src, pat, s, p0, []) != Fail
    && forall q: nat :: a <= q < s ==> MatchFrom(src, pat, q, p0, []) == Fail
  }

  function ResultAt(s: nat, m: Res): Found {
    match m
    case Done(e, caps) => FoundAt(s, e, caps)
    case Raise(err) => FindError(err)
    case Fail => NotFound
  }

  lemma FindStep(src: string, pat: string, p0: nat, a: nat)
    requires a <= |src| && p0 <= |pat|
    ensures var m := MatchFrom(src, pat, a, p0, []);
            PatternFind(src, pat, p0, a, false) ==
              if m != Fail then ResultAt(a, m)
              else if a < |src| then PatternFind(src, pat, p0, a + 1, false) else NotFound
  {
    hide MatchFrom;
  }

  lemma {:induction false} PatternFinds(src: string, pat: string, p0: nat, a: nat, s: nat)
    requires p0 <= |pat| && FirstPlace(src, pat, p0, a, s)
    ensures a <= s <= |src| && PatternFind(src, pat, p0, a, false) == ResultAt(s, MatchFrom(src, pat, s, p0, []))
    decreases s - a
  {
    hide MatchFrom, PatternFind, ResultAt;
    FindStep(src, pat, p0, a);
    if a < s { PatternFinds(src, pat, p0, a + 1, s); }
  }

  lemma {:induction false} PatternNowhere(src: string, pat: string, p0: nat, a: nat)
    requires a <= |src| && p0 <= |pat| && forall q: nat :: a <= q <= |src| ==> MatchFrom(src, pat, q, p0, []) == Fail
    ensures PatternFind(src, pat, p0, a, false) == NotFound
    decreases |src| - a
  {
    hide MatchFrom, PatternFind, ResultAt;
    FindStep(src, pat, p0, a);
    if a < |src| { PatternNowhere(src, pat, p0, a + 1); }
  }

  /** The first place from `a` on where the text occurs. */
  predicate FirstAt(src: string, w: string, a: nat, s: nat) {
    a <= s && Occurs(src, s, w) && forall q: nat :: a <= q < s ==> !Occurs(src, q, w)
  }

  lemma PlainFinds(src: string, a: nat, w: string)
    requires a <= |src|
    ensures forall s: nat :: FirstAt(src, w, a, s) ==> PlainFind(src, a, w) == FoundAt(s, s + |w|, [])
    ensures (forall s: nat :: !FirstAt(src, w, a, s)) ==> PlainFind(src, a, w) == NotFound
  {
    hide Occurs;
    var r := FirstOccurrence(src, a, w);
    if r.Some? { assert FirstAt(src, w, a, r.value); }
    forall s: nat | FirstAt(src, w, a, s)
      ensures r == Some(s)
    {
      assert s <= |src| by { OccursIn(src, s, w); }
    }
  }

  lemma OccursIn(src: string, s: nat, w: string)
    requires Occurs(src, s, w)
    ensures s + |w| <= |src|
  {
  }

  /** Positions count from 1, or from the end if they are negative; beyond an end they are that end. */
  function Place(pos: int, l: nat): nat {
    if pos > 0 then (if pos <= l then pos - 1 else l) else if pos < 0 && pos + l >= 0 then l + pos else 0
  }

  lemma StartIs(pos: int, l: nat)
    ensures Start(pos, l) == Place(pos, l) <= l
  {
  }

  /**
    What `find` and `match` give: a plain search the first occurrence; an anchored pattern what it matches at the
    beginning; and any other pattern the first place where it does not fail.
   */
  lemma FindRule(src: string, pat: string, pos: int, plain: bool, find: bool)
    ensures var init, r := Place(pos, |src|), FindAux(src, pat, pos, plain, find);
            init <= |src| &&
            if find && (plain || LooksPlain(pat)) then
              && (forall s: nat :: FirstAt(src, pat, init, s) ==> r == FoundAt(s, s + |pat|, []))
              && ((forall s: nat :: !FirstAt(src, pat, init, s)) ==> r == NotFound)
            else if C(pat, 0) == '^' then r == ResultAt(init, MatchFrom(src, pat, init, 1, []))
            else
              && (forall s: nat :: FirstPlace(src, pat, 0, init, s) ==> r == ResultAt(s, MatchFrom(src, pat, s, 0, [])))
              && ((forall q: nat :: init <= q <= |src| ==> MatchFrom(src, pat, q, 0, []) == Fail) ==> r == NotFound)
  {
    hide MatchFrom, LooksPlain, Place, Start, FirstAt, FirstPlace, PlainFind, PatternFind, ResultAt;
    StartIs(pos, |src|);
    var init := Place(pos, |src|);
    PlainFinds(src, init, pat);
    if C(pat, 0) == '^' { AnchoredFind(src, pat, init); }
    forall s: nat | FirstPlace(src, pat, 0, init, s)
      ensures s <= |src| && PatternFind(src, pat, 0, init, false) == ResultAt(s, MatchFrom(src, pat, s, 0, []))
    {
      PatternFinds(src, pat, 0, init, s);
    }
    if forall q: nat :: init <= q <= |src| ==> MatchFrom(src, pat, q, 0, []) == Fail {
      PatternNowhere(src, pat, 0, init);
    }
  }

  lemma AnchoredFind(src: string, pat: string, s: nat)
    requires s <= |src| && 1 <= |pat|
    ensures PatternFind(src, pat, 1, s, true) == ResultAt(s, MatchFrom(src, pat, s, 1, []))
  {
    hide MatchFrom;
  }

  // Where the two searches agree

  /** A character that stands for itself, and that nothing follows which repeats it. */
  predicate PlainAt(pat: string, p: nat)
    requires p < |pat|
  {
    pat[p] !in SPECIALS && pat[p] != ')' && pat[p] != '\0'
        && (p + 1 < |pat| ==> pat[p + 1] == '\0' || pat[p + 1] !in SPECIALS)
  }

  lemma PlainStep(src: string, pat: string, s: nat, p: nat, caps: seq<Cap>)
    requires s <= |src| && p < |pat| && PlainAt(pat, p)
    ensures StepAt(src, pat, s, p, caps) == if s < |src| && src[s] == pat[p] then Repeat(1, 1, false, p + 1) else Stuck
  {
  }

  lemma PlainOne(src: string, pat: string, s: nat, p: nat, caps: seq<Cap>)
    requires s < |src| && p < |pat| && StepAt(src, pat, s, p, caps) == Repeat(1, 1, false, p + 1)
    ensures MatchFrom(src, pat, s, p, caps) == MatchFrom(src, pat, s + 1, p + 1, caps)
  {
    assert Most(src, pat, s, p + 1, caps, 1, 1) == MatchFrom(src, pat, s + 1, p + 1, caps);
  }

  lemma OccursHead(src: string, s: nat, w: string)
    requires w != [] && Occurs(src, s, w)
    ensures s < |src| && src[s] == w[0]
  {
    assert src[s..s + |w|][0] == src[s];
  }

  lemma OccursNext(src: string, s: nat, w: string)
    requires w != [] && s < |src| && src[s] == w[0]
    ensures Occurs(src, s, w) <==> Occurs(src, s + 1, w[1..])
  {
    if s + |w| <= |src| {
      assert src[s..s + |w|] == [src[s]] + src[s + 1..s + |w|];
      assert w == [w[0]] + w[1..];
    }
  }

  /** Up to `k` the pattern is plain: it matches where that part occurs and the rest matches behind it. */
  lemma {:induction false} PlainPart(src: string, pat: string, s: nat, p: nat, k: nat, caps: seq<Cap>)
    requires s <= |src| && p <= k <= |pat| && forall i :: p <= i < k ==> PlainAt(pat, i)
    ensures var w := pat[p..k];
            MatchFrom(src, pat, s, p, caps) == if Occurs(src, s, w) then MatchFrom(src, pat, s + |w|, k, caps) else Fail
    decreases k - p
  {
    hide StepAt, MatchFrom;
    if p == k {
      assert pat[p..k] == [] && src[s..s] == [];
    } else {
      assert PlainAt(pat, p);
      PlainStep(src, pat, s, p, caps);
      var w, v := pat[p..k], pat[p + 1..k];
      assert w == [pat[p]] + v;
      if s < |src| && src[s] == pat[p] {
        PlainPart(src, pat, s + 1, p + 1, k, caps);
        PlainOne(src, pat, s, p, caps);
        OccursNext(src, s, w);
      } else {
        StuckFails(src, pat, s, p, caps);
        if Occurs(src, s, w) { OccursHead(src, s, w); }
      }
    }
  }

  lemma StuckFails(src: string, pat: string, s: nat, p: nat, caps: seq<Cap>)
    requires s <= |src| && p <= |pat| && StepAt(src, pat, s, p, caps) == Stuck
    ensures MatchFrom(src, pat, s, p, caps) == Fail
  {
  }

  lemma EndsMatch(src: string, pat: string, s: nat, caps: seq<Cap>)
    requires s <= |src|
    ensures MatchFrom(src, pat, s, |pat|, caps) == Done(s, caps)
  {
  }

  lemma {:induction false} SearchesAgree(src: string, pat: string, s: nat)
    requires s <= |src| && forall i :: 0 <= i < |pat| ==> PlainAt(pat, i)
    ensures PatternFind(src, pat, 0, s, false) == PlainFind(src, s, pat)
    decreases |src| - s
  {
    hide MatchFrom;
    PlainPart(src, pat, s, 0, |pat|, []);
    assert pat[0..|pat|] == pat;
    if Occurs(src, s, pat) {
      EndsMatch(src, pat, s + |pat|, []);
    } else if s < |src| {
      SearchesAgree(src, pat, s + 1);
    }
  }

  ghost predicate AlwaysAgree(pat: string) {
    forall src: string, s: nat :: s <= |src| ==> PatternFind(src, pat, 0, s, false) == PlainFind(src, s, pat)
  }

  /** The first closing parenthesis or zero. */
  function FirstStop(pat: string, i: nat): (k: nat)
    requires i <= |pat|
    ensures i <= k <= |pat| && (k < |pat| ==> pat[k] == ')' || pat[k] == '\0')
    ensures forall j :: i <= j < k ==> pat[j] != ')' && pat[j] != '\0'
    decreases |pat| - i
  {
    if i == |pat| || pat[i] == ')' || pat[i] == '\0' then i else FirstStop(pat, i + 1)
  }

  lemma PlainBefore(pat: string, k: nat)
    requires LooksPlain(pat) && k == FirstStop(pat, 0)
    ensures forall i :: 0 <= i < k ==> PlainAt(pat, i)
  {
    var n := Strlen(pat, 0);
    assert k <= n;
    assert forall i :: 0 <= i < k ==> PlainAt(pat, i);
  }

  lemma StopResult(src: string, pat: string, k: nat)
    requires k < |pat| && (pat[k] == ')' || pat[k] == '\0') && k <= |src|
    ensures MatchFrom(src, pat, k, k, []) == if pat[k] == ')' then Raise(InvalidPatternCapture) else Done(k, [])
  {
  }

  /**
    The text before a closing parenthesis or a zero: the matcher raises an error, or finds that text; a plain search
    finds nothing.
   */
  lemma StopDiffers(pat: string, k: nat)
    requires LooksPlain(pat) && k == FirstStop(pat, 0) && k < |pat|
    ensures PatternFind(pat[..k], pat, 0, 0, false) ==
              (if pat[k] == ')' then FindError(InvalidPatternCapture) else FoundAt(0, k, []))
    ensures PlainFind(pat[..k], 0, pat) == NotFound
  {
    hide MatchFrom, LooksPlain;
    var src := pat[..k];
    PlainBefore(pat, k);
    PlainPart(src, pat, 0, 0, k, []);
    assert pat[0..k] == src && src[0..k] == src;
    StopResult(src, pat, k);
  }

  /** The test of `str_find_aux` chooses the plain search rightly exactly for patterns without `)` and without zeros. */
  lemma PlainExact(pat: string)
    requires LooksPlain(pat)
    ensures AlwaysAgree(pat) <==> ')' !in pat && '\0' !in pat
  {
    hide PatternFind, PlainFind, LooksPlain;
    var k := FirstStop(pat, 0);
    if k == |pat| {
      PlainBefore(pat, k);
      forall src: string, s: nat | s <= |src|
        ensures PatternFind(src, pat, 0, s, false) == PlainFind(src, s, pat)
      {
        SearchesAgree(src, pat, s);
      }
    } else {
      StopDiffers(pat, k);
      assert pat[k] in pat;
    }
  }

  /**
    Two such patterns: the plain search finds the parenthesis, the matcher raises an error; a zero ends the pattern.
   */
  lemma ParenthesisDiffers()
    ensures LooksPlain(")") && PlainFind(")", 0, ")") == FoundAt(0, 1, [])
            && PatternFind(")", ")", 0, 0, false) == FindError(InvalidPatternCapture)
    ensures LooksPlain("a\0*") && PlainFind("a", 0, "a\0*") == NotFound
            && PatternFind("a", "a\0*", 0, 0, false) == FoundAt(0, 1, [])
  {
    var p, z := ")", "a\0*";
    assert Strlen(p, 1) == 1 && Strlen(p, 0) == 1;
    assert Strlen(z, 1) == 1 && Strlen(z, 0) == 1;
    StopResult(p, p, 0);
    StopResult("a", z, 1);
    PlainStep("a", z, 0, 0, []);
    PlainOne("a", z, 0, 0, []);
  }

  // The loops

  /** `memchr`: the first place from `i` on, and before `hi`, that holds the character. */
  function Memchr(s: string, i: nat, hi: nat, c: char): (r: Option<nat>)
    requires i <= hi <= |s|
    ensures r.Some? ==> i <= r.value < hi && s[r.value] == c && forall k :: i <= k < r.value ==> s[k] != c
    ensures r == None ==> forall k :: i <= k < hi ==> s[k] != c
    decreases hi - i
  {
    if i == hi then None else if s[i] == c then Some(i) else Memchr(s, i + 1, hi, c)
  }

  lemma {:induction false} NoneBefore(src: string, s: nat, i: nat, w: string)
    requires s <= i <= |src| && forall k :: s <= k < i ==> !Occurs(src, k, w)
    ensures FirstOccurrence(src, s, w) == FirstOccurrence(src, i, w)
    decreases i - s
  {
    if s < i { NoneBefore(src, s + 1, i, w); }
  }

  lemma NotFirst(src: string, s: nat, w: string)
    requires w != [] && (s < |src| ==> src[s] != w[0])
    ensures !Occurs(src, s, w)
  {
    if Occurs(src, s, w) { OccursHead(src, s, w); }
  }

  /** `lmemfind`: looks for the first character, then compares the rest. */
  method Lmemfind(src: string, s: nat, w: string) returns (r: Option<nat>)
    requires s <= |src|
    ensures r == FirstOccurrence(src, s, w)
  {
    hide Memchr;
    if |w| == 0 { return Some(s); }
    if |w| > |src| - s {
      NoneBefore(src, s, |src|, w);
      return None;
    }
    var l2 := |w| - 1;
    var l1: int, s1: nat := |src| - s - l2, s;
    while l1 > 0
      invariant s <= s1 <= |src| && l1 >= 0 && s1 + l1 + l2 == |src|
      invariant forall k :: s <= k < s1 ==> !Occurs(src, k, w)
      decreases l1
    {
      var at := Memchr(src, s1, s1 + l1, w[0]);
      if at == None {
        forall k | s1 <= k <= |src|
          ensures !Occurs(src, k, w)
        {
          if k < s1 + l1 { NotFirst(src, k, w); }
        }
        NoneBefore(src, s, |src|, w);
        return None;
      }
      var init := at.value + 1;
      forall k | s1 <= k < at.value
        ensures !Occurs(src, k, w)
      {
        NotFirst(src, k, w);
      }
      OccursNext(src, at.value, w);
      if src[init..init + l2] == w[1..] {
        NoneBefore(src, s, at.value, w);
        return Some(at.value);
      }
      l1 := l1 - (init - s1);
      s1 := init;
    }
    NoneBefore(src, s, |src|, w);
    r := None;
  }

  /** `str_find_aux`. */
  method StrFindAux(src: string, pat: string, pos: int, plain: bool, find: bool) returns (r: Found)
    ensures r == FindAux(src, pat, pos, plain, find)
  {
    hide MatchFrom, FirstOccurrence;
    var init := Start(pos, |src|);
    if find && (plain || LooksPlain(pat)) {
      var s := Lmemfind(src, init, pat);
      return if s == None then NotFound else FoundAt(s.value, s.value + |pat|, []);
    }
    var anchor := C(pat, 0) == '^';
    var p := if anchor then 1 else 0;
    var ms := new MatchState(src, pat);
    var s1: nat, more := init, true;
    while more
      invariant p <= |pat| && ms.Valid() && ms.src == src && ms.pat == pat && fresh(ms) && fresh(ms.capture)
      invariant s1 <= |src| + 1 && (more ==> s1 <= |src|)
      invariant if more then PatternFind(src, pat, p, s1, anchor) == PatternFind(src, pat, p, init, anchor)
                else PatternFind(src, pat, p, init, anchor) == NotFound
      decreases more, |src| + 1 - s1
    {
      ms.level := 0;
      assert ms.Caps() == [];
      var res := ms.Match(s1, p);
      match res {
        case At(e) => return FoundAt(s1, e, ms.Caps());
        case Failed(err) => return FindError(err);
        case Null =>
      }
      more := s1 < |src| && !anchor;
      s1 := s1 + 1;
    }
    r := NotFound;
  }
}
