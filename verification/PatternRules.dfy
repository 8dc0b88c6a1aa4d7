/** What each construct of a pattern means for the matcher, and each character class for a character. */
module PatternRules {
  import opened Common
  import opened Patterns

  // Character classes

  predicate InCodes(c: char, lo: int, hi: int) { lo <= c as int <= hi }

  /** The characters of the classes `%a` to `%z`, by their codes in ASCII. */
  predicate Belongs(c: char, letter: char)
    requires letter in "acdlpsuwxz"
  {
    match letter
    case 'a' => InCodes(c, 65, 90) || InCodes(c, 97, 122)
    case 'c' => InCodes(c, 0, 31) || InCodes(c, 127, 127)
    case 'd' => InCodes(c, 48, 57)
    case 'l' => InCodes(c, 97, 122)
    case 'p' => InCodes(c, 33, 47) || InCodes(c, 58, 64) || InCodes(c, 91, 96) || InCodes(c, 123, 126)
    case 's' => InCodes(c, 9, 13) || InCodes(c, 32, 32)
    case 'u' => InCodes(c, 65, 90)
    case 'w' => InCodes(c, 48, 57) || InCodes(c, 65, 90) || InCodes(c, 97, 122)
    case 'x' => InCodes(c, 48, 57) || InCodes(c, 65, 70) || InCodes(c, 97, 102)
    case _ => c as int == 0
  }

  /** The class letter, in either case. */
  predicate ClassLetter(cl: char, letter: char) {
    letter in "acdlpsuwxz" && (cl == letter || cl as int + 32 == letter as int)
  }

  /** A class letter stands for its characters, in upper case for all others; any other character for itself. */
  lemma ClassLetters(c: char, cl: char)
    ensures forall letter :: ClassLetter(cl, letter) ==>
                               (MatchClass(c, cl) <==> (Belongs(c, letter) <==> cl == letter))
    ensures (forall letter :: !ClassLetter(cl, letter)) ==> (MatchClass(c, cl) <==> c == cl)
  {
    if ToLower(cl) in "acdlpsuwxz" { assert ClassLetter(cl, ToLower(cl)); }
  }

  // Sets

  /** An element of a set in brackets: a character, a range, or a class letter or character behind `%`. */
  datatype Element = One(c: char) | Range(lo: char, hi: char) | Escaped(c: char)

  function ElementText(x: Element): string {
    match x
    case One(c) => [c]
    case Range(lo, hi) => [lo, '-', hi]
    case Escaped(c) => ['%', c]
  }

  function SetText(xs: seq<Element>): string { if xs == [] then "" else ElementText(xs[0]) + SetText(xs[1..]) }

  predicate ElementHolds(x: Element, c: char) {
    match x
    case One(d) => c == d
    case Range(lo, hi) => lo <= c <= hi
    case Escaped(d) => MatchClass(c, d)
  }

  /** The text is read as the element: `]` closes the set but at its beginning, and `-` between two makes a range. */
  predicate Readable(x: Element, first: bool, rest: seq<Element>) {
    match x
    case One(c) => c != '\0' && c != '%' && (c == ']' ==> first)
                   && (rest != [] && ElementText(rest[0])[0] == '-' ==> rest == [One('-')])
    case Range(lo, hi) => lo != '\0' && lo != '%' && (lo == ']' ==> first) && hi != '\0' && hi != '%' && hi != ']'
    case Escaped(c) => c != '\0'
  }

  /** A hyphen stands for itself at the end of the set, or behind a range or an escaped character. */
  predicate AllReadable(xs: seq<Element>, first: bool) {
    xs == [] || (Readable(xs[0], first, xs[1..]) && AllReadable(xs[1..], false))
  }

  predicate TextAt(pat: string, p: nat, text: string) { p + |text| <= |pat| && pat[p..p + |text|] == text }

  lemma TextParts(pat: string, p: nat, a: string, b: string)
    requires TextAt(pat, p, a + b)
    ensures TextAt(pat, p, a) && TextAt(pat, p + |a|, b)
    ensures forall i :: 0 <= i < |a| ==> C(pat, p + i) == a[i]
  {
    assert pat[p..p + |a + b|][..|a|] == a;
    assert pat[p..p + |a + b|][|a|..] == b;
    assert forall i :: 0 <= i < |a| ==> pat[p..p + |a|][i] == a[i];
  }

  lemma SetStarts(xs: seq<Element>)
    requires xs != []
    ensures |SetText(xs)| > 0 && SetText(xs)[0] == ElementText(xs[0])[0]
  {
  }

  /** The text of the elements up to the closing bracket is the set of what they hold. */
  lemma {:induction false} SetHolds(pat: string, p: nat, xs: seq<Element>, first: bool, c: char)
    requires TextAt(pat, p + 1, SetText(xs) + "]") && AllReadable(xs, first)
    ensures InSet(pat, p, p + 1 + |SetText(xs)|, c) <==> exists i :: 0 <= i < |xs| && ElementHolds(xs[i], c)
    decreases |xs|
  {
    hide *;
    SetIs(xs);
    ReadableParts(xs, first);
    if xs == [] {
      InEmpty(pat, p, c);
    } else {
      var x, t, rest := xs[0], ElementText(xs[0]), SetText(xs[1..]);
      assert SetText(xs) + "]" == t + (rest + "]");
      TextParts(pat, p + 1, t, rest + "]");
      SetHolds(pat, p + |t|, xs[1..], false, c);
      HoldsSome(xs, c);
      ElementRead(pat, p, x, xs[1..], first, c);
    }
  }

  lemma SetIs(xs: seq<Element>)
    ensures SetText(xs) == if xs == [] then "" else ElementText(xs[0]) + SetText(xs[1..])
  {
  }

  lemma ReadableParts(xs: seq<Element>, first: bool)
    requires AllReadable(xs, first)
    ensures xs != [] ==> Readable(xs[0], first, xs[1..]) && AllReadable(xs[1..], false)
  {
  }

  lemma InEmpty(pat: string, p: nat, c: char)
    ensures !InSet(pat, p, p + 1, c)
  {
  }

  lemma HoldsSome(xs: seq<Element>, c: char)
    requires xs != []
    ensures (exists i :: 0 <= i < |xs| && ElementHolds(xs[i], c)) <==>
            ElementHolds(xs[0], c) || exists i :: 0 <= i < |xs[1..]| && ElementHolds(xs[1..][i], c)
  {
    hide ElementHolds;
    assert forall i :: 0 < i < |xs| ==> xs[i] == xs[1..][i - 1];
    assert forall i :: 0 <= i < |xs[1..]| ==> xs[1..][i] == xs[i + 1];
  }

  lemma ElementRead(pat: string, p: nat, x: Element, rest: seq<Element>, first: bool, c: char)
    requires var t := ElementText(x);
             && TextAt(pat, p + 1, t) && TextAt(pat, p + 1 + |t|, SetText(rest) + "]")
             && (forall i :: 0 <= i < |t| ==> C(pat, p + 1 + i) == t[i])
             && Readable(x, first, rest)
    ensures var ec := p + 1 + |ElementText(x)| + |SetText(rest)|;
            InSet(pat, p, ec, c) <==> ElementHolds(x, c) || InSet(pat, p + |ElementText(x)|, ec, c)
  {
    hide MatchClass;
    var t := ElementText(x);
    var q, ec := p + 1, p + 1 + |t| + |SetText(rest)|;
    assert C(pat, q) == t[0];
    match x
    case Escaped(d) => assert C(pat, q + 1) == t[1];
    case Range(lo, hi) => assert C(pat, q + 1) == t[1] && C(pat, q + 2) == t[2];
    case One(d) => NoRange(pat, q, rest);
  }

  /** Behind a single character there is no hyphen, or the hyphen is the last of the set. */
  lemma NoRange(pat: string, q: nat, rest: seq<Element>)
    requires TextAt(pat, q + 1, SetText(rest) + "]")
    requires rest != [] && ElementText(rest[0])[0] == '-' ==> rest == [One('-')]
    ensures !(C(pat, q + 1) == '-' && q + 2 < q + 1 + |SetText(rest)|)
  {
    var t := SetText(rest) + "]";
    assert pat[q + 1..q + 1 + |t|][0] == t[0];
    if rest != [] {
      SetStarts(rest);
      if |rest| == 1 { assert SetText(rest[1..]) == ""; }
    }
  }

  lemma ReadableText(x: Element, first: bool, rest: seq<Element>)
    requires Readable(x, first, rest)
    ensures var t := ElementText(x);
            && |t| > 0 && (forall i :: 0 <= i < |t| ==> t[i] != '\0') && (!first ==> t[0] != ']')
            && (t[0] == '%' ==> |t| == 2) && (|t| == 3 ==> t[0] != '%' && t[1] == '-' && t[2] != '%' && t[2] != ']')
            && (|t| == 2 ==> t[0] == '%') && |t| <= 3
  {
  }

  lemma EndStep(pat: string, q: nat)
    requires C(pat, q) != '\0'
    ensures C(pat, q) == '%' && C(pat, q + 1) != '\0' ==>
              SetEnd(pat, q) == if C(pat, q + 2) == ']' then Some(q + 3) else SetEnd(pat, q + 2)
    ensures C(pat, q) != '%' ==> SetEnd(pat, q) == if C(pat, q + 1) == ']' then Some(q + 2) else SetEnd(pat, q + 1)
  {
  }

  lemma CharsAt(pat: string, q: nat, t: string, next: char)
    requires TextAt(pat, q, t + [next])
    ensures (forall i :: 0 <= i < |t| ==> C(pat, q + i) == t[i]) && C(pat, q + |t|) == next
  {
    var u := t + [next];
    assert forall i :: 0 <= i < |u| ==> pat[q..q + |u|][i] == u[i];
    assert u[|t|] == next;
  }

  /** One element is passed on the way to the closing bracket. */
  lemma ElementPassed(pat: string, q: nat, t: string, next: char)
    requires 0 < |t| <= 3 && TextAt(pat, q, t + [next])
    requires (forall i :: 0 <= i < |t| ==> t[i] != '\0') && (t[0] == '%' <==> |t| == 2)
    requires |t| == 3 ==> t[1] == '-' && t[2] != '%' && t[2] != ']'
    ensures SetEnd(pat, q) == if next == ']' then Some(q + |t| + 1) else SetEnd(pat, q + |t|)
  {
    hide SetEnd, C, TextAt;
    CharsAt(pat, q, t, next);
    assert C(pat, q + 0) == t[0];
    EndStep(pat, q);
    if |t| == 2 {
      assert C(pat, q + 1) == t[1];
    } else if |t| == 3 {
      assert C(pat, q + 1) == t[1] && C(pat, q + 2) == t[2];
      EndStep(pat, q + 1);
      EndStep(pat, q + 2);
    }
  }

  /** The set ends with the first bracket behind its elements. */
  lemma {:induction false} SetEnds(pat: string, q: nat, xs: seq<Element>, first: bool)
    requires xs != [] && TextAt(pat, q, SetText(xs) + "]") && AllReadable(xs, first)
    ensures SetEnd(pat, q) == Some(q + |SetText(xs)| + 1)
    decreases |xs|
  {
    hide *;
    SetIs(xs);
    ReadableParts(xs, first);
    ReadableText(xs[0], first, xs[1..]);
    var t, rest := ElementText(xs[0]), SetText(xs[1..]) + "]";
    assert SetText(xs) + "]" == t + rest;
    TextParts(pat, q, t, rest);
    assert rest == [rest[0]] + rest[1..];
    assert t + rest == (t + [rest[0]]) + rest[1..];
    TextParts(pat, q, t + [rest[0]], rest[1..]);
    ElementPassed(pat, q, t, rest[0]);
    SetIs(xs[1..]);
    if |xs| > 1 {
      ReadableParts(xs[1..], false);
      ReadableText(xs[1], false, xs[2..]);
      assert xs[1..][1..] == xs[2..];
      assert rest[0] == ElementText(xs[1])[0] by { SetStarts(xs[1..]); }
      SetEnds(pat, q + |t|, xs[1..], false);
    }
  }

  // Single characters

  datatype Class = Any | Plain(c: char) | Escape(c: char) | Set(neg: bool, xs: seq<Element>)

  function ClassText(cl: Class): string {
    match cl
    case Any => "."
    case Plain(c) => [c]
    case Escape(c) => ['%', c]
    case Set(neg, xs) => (if neg then "[^" else "[") + SetText(xs) + "]"
  }

  predicate ClassReadable(cl: Class) {
    match cl
    case Any => true
    case Plain(c) => c !in ".%[" && c != '\0'
    case Escape(c) => c != '\0'
    case Set(neg, xs) => xs != [] && AllReadable(xs, true) && (neg || ElementText(xs[0])[0] != '^')
  }

  predicate ClassHolds(cl: Class, c: char) {
    match cl
    case Any => true
    case Plain(d) => c == d
    case Escape(d) => MatchClass(c, d)
    case Set(neg, xs) => neg != exists i :: 0 <= i < |xs| && ElementHolds(xs[i], c)
  }

  /** Where a pattern has the text of a class, the class ends with it, and what matches is what it holds. */
  lemma ClassMeans(pat: string, p: nat, cl: Class, c: char)
    requires ClassReadable(cl) && TextAt(pat, p, ClassText(cl))
    ensures var ep := p + |ClassText(cl)|;
            C(pat, p) != '\0' && ClassEnd(pat, p) == Some(ep) && (Single(pat, p, ep, c) <==> ClassHolds(cl, c))
  {
    if cl.Set? { SetMeans(pat, p, cl.neg, cl.xs, c); } else { CharMeans(pat, p, cl, c); }
  }

  lemma CharMeans(pat: string, p: nat, cl: Class, c: char)
    requires !cl.Set? && ClassReadable(cl) && TextAt(pat, p, ClassText(cl))
    ensures var ep := p + |ClassText(cl)|;
            C(pat, p) != '\0' && ClassEnd(pat, p) == Some(ep) && (Single(pat, p, ep, c) <==> ClassHolds(cl, c))
  {
    hide MatchClass;
    var t := ClassText(cl);
    assert pat[p..p + |t|][0] == t[0];
    if cl.Escape? { assert pat[p..p + |t|][1] == t[1]; }
  }

  lemma SetMeans(pat: string, p: nat, neg: bool, xs: seq<Element>, c: char)
    requires ClassReadable(Set(neg, xs)) && TextAt(pat, p, ClassText(Set(neg, xs)))
    ensures var ep := p + |ClassText(Set(neg, xs))|;
            C(pat, p) != '\0' && ClassEnd(pat, p) == Some(ep)
            && (Single(pat, p, ep, c) <==> ClassHolds(Set(neg, xs), c))
  {
    hide *;
    ClassSetIs(neg, xs);
    if neg { SetMeansBehind(pat, p, "[^", neg, xs, c); } else { SetMeansBehind(pat, p, "[", neg, xs, c); }
  }

  lemma ClassSetIs(neg: bool, xs: seq<Element>)
    ensures ClassText(Set(neg, xs)) == (if neg then "[^" else "[") + (SetText(xs) + "]")
    ensures ClassReadable(Set(neg, xs)) ==>
              xs != [] && AllReadable(xs, true) && |ElementText(xs[0])| > 0 && (neg || ElementText(xs[0])[0] != '^')
  {
    hide SetText, AllReadable;
  }

  lemma SetMeansBehind(pat: string, p: nat, open: string, neg: bool, xs: seq<Element>, c: char)
    requires xs != [] && AllReadable(xs, true) && |ElementText(xs[0])| > 0 && (neg || ElementText(xs[0])[0] != '^')
    requires open == (if neg then "[^" else "[") && TextAt(pat, p, open + (SetText(xs) + "]"))
    ensures var ep := p + |open + (SetText(xs) + "]")|;
            C(pat, p) != '\0' && ClassEnd(pat, p) == Some(ep)
            && (Single(pat, p, ep, c) <==> ClassHolds(Set(neg, xs), c))
  {
    hide *;
    var q := p + |open|;
    TextParts(pat, p, open, SetText(xs) + "]");
    assert C(pat, p + 0) == open[0];
    if neg { assert C(pat, p + 1) == open[1]; }
    SetEnds(pat, q, xs, true);
    SetHolds(pat, q - 1, xs, true, c);
    SetStarts(xs);
    FirstOf(pat, q, SetText(xs) + "]");
    BracketIs(pat, p, q + |SetText(xs)| + 1, c);
    SetIsHeld(neg, xs, c);
  }

  lemma SetIsHeld(neg: bool, xs: seq<Element>, c: char)
    ensures ClassHolds(Set(neg, xs), c) <==> (neg != exists i :: 0 <= i < |xs| && ElementHolds(xs[i], c))
  {
    hide ElementHolds;
  }

  lemma BracketIs(pat: string, p: nat, ep: nat, c: char)
    requires C(pat, p) == '[' && ep > 0
    ensures C(pat, p) != '\0' && ClassEnd(pat, p) == SetEnd(pat, if C(pat, p + 1) == '^' then p + 2 else p + 1)
    ensures Single(pat, p, ep, c) <==>
            if C(pat, p + 1) == '^' then !InSet(pat, p + 1, ep - 1, c) else InSet(pat, p, ep - 1, c)
  {
    hide SetEnd, InSet, C;
  }

  lemma FirstOf(pat: string, q: nat, t: string)
    requires t != [] && TextAt(pat, q, t)
    ensures C(pat, q) == t[0]
  {
    assert pat[q..q + |t|][0] == t[0];
  }

  // Repetitions

  /** A single-character class of the pattern, which ends at `ep`. */
  predicate ClassAt(pat: string, p: nat, ep: nat) {
    && C(pat, p) != '\0' && C(pat, p) !in "()" && ClassEnd(pat, p) == Some(ep)
    && !(C(pat, p) == '$' && C(pat, p + 1) == '\0')
    && !(C(pat, p) == '%' && (C(pat, p + 1) in "bf" || IsDigit(C(pat, p + 1))))
  }

  /** Just `n` characters from `s` on belong to the class. */
  predicate Belonging(src: string, s: nat, pat: string, p: nat, ep: nat, n: nat) {
    && s + n <= |src| && (forall i :: s <= i < s + n ==> Single(pat, p, ep, src[i]))
    && (s + n < |src| ==> !Single(pat, p, ep, src[s + n]))
  }

  /** `r` is the result for the last place from `lo` to `hi` from which the rest of the pattern does not fail. */
  predicate Last(src: string, pat: string, lo: nat, hi: nat, p: nat, caps: seq<Cap>, r: Res)
    requires hi <= |src| && p <= |pat|
  {
    if r == Fail then forall i: nat :: lo <= i <= hi ==> MatchFrom(src, pat, i, p, caps) == Fail
    else exists k: nat :: && lo <= k <= hi && MatchFrom(src, pat, k, p, caps) == r
                          && forall i: nat :: k < i <= hi ==> MatchFrom(src, pat, i, p, caps) == Fail
  }

  predicate Earliest(src: string, pat: string, lo: nat, hi: nat, p: nat, caps: seq<Cap>, r: Res)
    requires hi <= |src| && p <= |pat|
  {
    if r == Fail then forall i: nat :: lo <= i <= hi ==> MatchFrom(src, pat, i, p, caps) == Fail
    else exists k: nat :: && lo <= k <= hi && MatchFrom(src, pat, k, p, caps) == r
                          && forall i: nat :: lo <= i < k ==> MatchFrom(src, pat, i, p, caps) == Fail
  }

  lemma {:induction false} RepsIs(src: string, s: nat, pat: string, p: nat, ep: nat, n: nat)
    requires Belonging(src, s, pat, p, ep, n)
    ensures Reps(src, s, pat, p, ep) == n
    decreases n
  {
    if n > 0 { RepsIs(src, s + 1, pat, p, ep, n - 1); }
  }

  lemma {:induction false} MostIs(src: string, pat: string, s: nat, p: nat, caps: seq<Cap>, lo: nat, hi: nat)
    requires s + hi <= |src| && p <= |pat| && lo <= hi
    ensures Last(src, pat, s + lo, s + hi, p, caps, Most(src, pat, s, p, caps, lo, hi))
    decreases hi - lo
  {
    hide MatchFrom;
    if MatchFrom(src, pat, s + hi, p, caps) == Fail && lo < hi { MostIs(src, pat, s, p, caps, lo, hi - 1); }
  }

  lemma {:induction false} FewestIs(src: string, pat: string, s: nat, p: nat, caps: seq<Cap>, lo: nat, hi: nat)
    requires s + hi <= |src| && p <= |pat| && lo <= hi
    ensures Earliest(src, pat, s + lo, s + hi, p, caps, Fewest(src, pat, s, p, caps, lo, hi))
    decreases hi - lo
  {
    hide MatchFrom;
    if MatchFrom(src, pat, s + lo, p, caps) == Fail && lo < hi { FewestIs(src, pat, s, p, caps, lo + 1, hi); }
  }

  lemma ClassStep(src: string, pat: string, s: nat, p: nat, caps: seq<Cap>, ep: nat)
    requires s <= |src| && p <= |pat| && ClassAt(pat, p, ep)
    ensures ep <= |pat| && StepAt(src, pat, s, p, caps) == ItemStep(src, pat, s, p)
  {
    hide ItemStep, ClassEnd;
  }

  /**
    What the mark behind a class means, when `n` characters from `s` on belong to it: `*` the most repetitions that let
    the rest match, `+` the same but at least one, `-` the fewest, `?` one if that lets the rest match and else none;
    without a mark there is exactly one.
   */
  lemma MarkRule(src: string, pat: string, s: nat, p: nat, caps: seq<Cap>, ep: nat, n: nat)
    requires s <= |src| && p <= |pat| && ClassAt(pat, p, ep) && Belonging(src, s, pat, p, ep, n)
    ensures ep <= |pat| && var r, mark := MatchFrom(src, pat, s, p, caps), C(pat, ep);
            && (mark in "*+-?" ==> ep < |pat|)
            && (mark == '*' ==> Last(src, pat, s, s + n, ep + 1, caps, r))
            && (mark == '+' ==> Last(src, pat, s + 1, s + n, ep + 1, caps, r))
            && (mark == '-' ==> Earliest(src, pat, s, s + n, ep + 1, caps, r))
            && (mark == '?' ==> Last(src, pat, s, if n > 0 then s + 1 else s, ep + 1, caps, r))
            && (mark !in "*+-?" ==> r == if n > 0 then MatchFrom(src, pat, s + 1, ep, caps) else Fail)
  {
    hide Most, Fewest, ClassEnd, Reps, Belonging, StepAt, Last, Earliest;
    ClassStep(src, pat, s, p, caps, ep);
    RepsIs(src, s, pat, p, ep, n);
    assert s + n <= |src| by { BelongingEnds(src, s, pat, p, ep, n); }
    if C(pat, ep) == '*' { MostIs(src, pat, s, ep + 1, caps, 0, n); }
    if C(pat, ep) == '+' {
      if n > 0 { MostIs(src, pat, s, ep + 1, caps, 1, n); } else { NoneLast(src, pat, s, ep + 1, caps); }
    }
    if C(pat, ep) == '-' { FewestIs(src, pat, s, ep + 1, caps, 0, n); }
    if C(pat, ep) == '?' { MostIs(src, pat, s, ep + 1, caps, 0, if n > 0 then 1 else 0); }
    if C(pat, ep) !in "*+-?" && n > 0 { MostOnly(src, pat, s, ep, caps); }
  }

  lemma BelongingEnds(src: string, s: nat, pat: string, p: nat, ep: nat, n: nat)
    requires Belonging(src, s, pat, p, ep, n)
    ensures s + n <= |src|
  {
  }

  lemma NoneLast(src: string, pat: string, s: nat, p: nat, caps: seq<Cap>)
    requires s <= |src| && p <= |pat|
    ensures Last(src, pat, s + 1, s, p, caps, Fail)
  {
  }

  lemma MostOnly(src: string, pat: string, s: nat, p: nat, caps: seq<Cap>)
    requires s < |src| && p <= |pat|
    ensures Most(src, pat, s, p, caps, 1, 1) == MatchFrom(src, pat, s + 1, p, caps)
  {
  }

  // The other constructs

  /** The pattern ends: that matches; with `$` as its last character only at the end of the source. */
  lemma EndRule(src: string, pat: string, s: nat, p: nat, caps: seq<Cap>)
    requires s <= |src| && p <= |pat|
    ensures C(pat, p) == '\0' ==> MatchFrom(src, pat, s, p, caps) == Done(s, caps)
    ensures C(pat, p) == '$' && C(pat, p + 1) == '\0' ==>
              MatchFrom(src, pat, s, p, caps) == if s == |src| then Done(s, caps) else Fail
  {
  }

  /** An opening parenthesis begins a capture, and `()` captures the position; there may be 32 of them. */
  lemma OpenRule(src: string, pat: string, s: nat, p: nat, caps: seq<Cap>)
    requires s <= |src| && p < |pat| && pat[p] == '('
    ensures |caps| >= 32 ==> MatchFrom(src, pat, s, p, caps) == Raise(TooManyCaptures)
    ensures |caps| < 32 && p + 1 < |pat| && pat[p + 1] == ')' ==>
              MatchFrom(src, pat, s, p, caps) == MatchFrom(src, pat, s, p + 2, caps + [Cap(s, POSITION)])
    ensures |caps| < 32 && !(p + 1 < |pat| && pat[p + 1] == ')') ==>
              MatchFrom(src, pat, s, p, caps) == MatchFrom(src, pat, s, p + 1, caps + [Cap(s, UNFINISHED)])
  {
    hide ItemStep, EscStep;
  }

  /** The last capture that is open. */
  predicate LastOpen(caps: seq<Cap>, l: nat) {
    l < |caps| && caps[l].len == UNFINISHED && forall i :: l < i < |caps| ==> caps[i].len != UNFINISHED
  }

  /** A closing parenthesis ends the last capture that is open. */
  lemma CloseRule(src: string, pat: string, s: nat, p: nat, caps: seq<Cap>)
    requires s <= |src| && p < |pat| && pat[p] == ')'
    ensures (forall i :: 0 <= i < |caps| ==> caps[i].len != UNFINISHED) ==>
              MatchFrom(src, pat, s, p, caps) == Raise(InvalidPatternCapture)
    ensures forall l: nat :: LastOpen(caps, l) ==>
                          l < |caps| && MatchFrom(src, pat, s, p, caps) ==
                          MatchFrom(src, pat, s, p + 1, caps[l := Cap(caps[l].init, s - caps[l].init)])
  {
    hide StepAt, ToClose, MatchFrom, LastOpen;
    CloseStep(src, pat, s, p, caps);
    if ToClose(caps) == None {
      ErrorStep(src, pat, s, p, caps);
    } else {
      GoStep(src, pat, s, p, caps);
    }
    forall l: nat | LastOpen(caps, l)
      ensures l < |caps| && ToClose(caps) == Some(l)
    {
      LastIs(caps, l);
    }
  }

  lemma GoStep(src: string, pat: string, s: nat, p: nat, caps: seq<Cap>)
    requires s <= |src| && p <= |pat| && StepAt(src, pat, s, p, caps).Go?
    ensures var t := StepAt(src, pat, s, p, caps);
            MatchFrom(src, pat, s, p, caps) == MatchFrom(src, pat, t.s, t.p, t.caps)
  {
    hide StepAt;
  }

  lemma ErrorStep(src: string, pat: string, s: nat, p: nat, caps: seq<Cap>)
    requires s <= |src| && p <= |pat| && StepAt(src, pat, s, p, caps).Error?
    ensures MatchFrom(src, pat, s, p, caps) == Raise(StepAt(src, pat, s, p, caps).err)
  {
    hide StepAt;
  }

  lemma LastIs(caps: seq<Cap>, l: nat)
    requires LastOpen(caps, l)
    ensures l < |caps| && ToClose(caps) == Some(l)
  {
  }

  lemma CloseStep(src: string, pat: string, s: nat, p: nat, caps: seq<Cap>)
    requires s <= |src| && p < |pat| && pat[p] == ')'
    ensures StepAt(src, pat, s, p, caps) ==
            if ToClose(caps) == None then Error(InvalidPatternCapture)
            else var l := ToClose(caps).value; Go(s, p + 1, caps[l := Cap(caps[l].init, s - caps[l].init)])
    ensures (forall i :: 0 <= i < |caps| ==> caps[i].len != UNFINISHED) <==> ToClose(caps) == None
  {
    hide ItemStep, EscStep;
  }

  /** `%1` to `%9` stand for the text of a capture that is closed. */
  lemma BackRule(src: string, pat: string, s: nat, p: nat, caps: seq<Cap>)
    requires s <= |src| && p + 1 < |pat| && pat[p] == '%' && '0' <= pat[p + 1] <= '9'
    ensures var i, r := pat[p + 1] as int - 49, MatchFrom(src, pat, s, p, caps);
            if i < 0 || i >= |caps| || caps[i].len == UNFINISHED then r == Raise(InvalidCaptureIndex)
            else if && caps[i].len >= 0 && caps[i].init + caps[i].len <= |src| && s + caps[i].len <= |src|
                    && src[caps[i].init..caps[i].init + caps[i].len] == src[s..s + caps[i].len]
            then r == MatchFrom(src, pat, s + caps[i].len, p + 2, caps)
            else r == Fail
  {
    hide ItemStep, MatchBracket, Balance;
    assert StepAt(src, pat, s, p, caps) == EscStep(src, pat, s, p, caps);
  }

  /** `%f` and a set: the character before is not in the set and the one here is; a zero stands at both ends. */
  lemma FrontierRule(src: string, pat: string, s: nat, p: nat, caps: seq<Cap>, ep: nat)
    requires s <= |src| && p + 1 < |pat| && pat[p] == '%' && pat[p + 1] == 'f'
    ensures C(pat, p + 2) != '[' ==> MatchFrom(src, pat, s, p, caps) == Raise(MissingAfterFrontier)
    ensures C(pat, p + 2) == '[' && ClassEnd(pat, p + 2) == Some(ep) ==>
              ep <= |pat| && MatchFrom(src, pat, s, p, caps) ==
                             if !Single(pat, p + 2, ep, if s == 0 then '\0' else src[s - 1])
                                && Single(pat, p + 2, ep, if s == |src| then '\0' else src[s])
                             then MatchFrom(src, pat, s, ep, caps) else Fail
  {
    hide ItemStep, MatchBracket, Balance;
    assert StepAt(src, pat, s, p, caps) == EscStep(src, pat, s, p, caps);
  }

  function Weight(c: char, x: char, y: char): int { if c == y then -1 else if c == x then 1 else 0 }

  /** How many more openings than closings there are between two places. */
  function Depth(src: string, i: nat, t: nat, x: char, y: char): int
    requires t <= |src|
    decreases t - i
  {
    if i >= t then 0 else Weight(src[i], x, y) + Depth(src, i + 1, t, x, y)
  }

  /** From `i` on, with `open` openings before, the closings catch up for the first time at `t`. */
  predicate Closes(src: string, i: nat, t: nat, x: char, y: char, open: nat) {
    && i < t <= |src| && open + Depth(src, i, t, x, y) == 0
    && forall u: nat :: i <= u < t ==> open + Depth(src, i, u, x, y) > 0
  }

  /** The text from `s` to `t` begins with `x`, and is balanced at its end for the first time. */
  predicate Balanced(src: string, s: nat, t: nat, x: char, y: char) {
    s < |src| && src[s] == x && Closes(src, s + 1, t, x, y, 1)
  }

  lemma DepthStep(src: string, i: nat, u: nat, x: char, y: char)
    requires i < u <= |src|
    ensures Depth(src, i, u, x, y) == Weight(src[i], x, y) + Depth(src, i + 1, u, x, y)
    ensures Depth(src, i, i, x, y) == 0 && Depth(src, i + 1, i + 1, x, y) == 0
  {
  }

  lemma ClosesStep(src: string, i: nat, t: nat, x: char, y: char, open: nat)
    requires i < |src| && open > 0
    ensures var w := open + Weight(src[i], x, y);
            w >= 0 && (Closes(src, i, t, x, y, open) <==> if w > 0 then Closes(src, i + 1, t, x, y, w) else t == i + 1)
  {
    hide Depth;
    forall u: nat | i < u <= |src|
      ensures Depth(src, i, u, x, y) == Weight(src[i], x, y) + Depth(src, i + 1, u, x, y)
    {
      DepthStep(src, i, u, x, y);
    }
    DepthStep(src, i, i + 1, x, y);
    var w := open + Weight(src[i], x, y);
    if w > 0 && Closes(src, i + 1, t, x, y, w) {
      forall u: nat | i <= u < t
        ensures open + Depth(src, i, u, x, y) > 0
      {
        if u > i + 1 { assert w + Depth(src, i + 1, u, x, y) > 0; }
      }
    }
    if w > 0 && Closes(src, i, t, x, y, open) {
      var k := i + 1;
      forall u: nat | k <= u < t
        ensures w + Depth(src, k, u, x, y) > 0
      {
        assert open + Depth(src, i, u, x, y) > 0;
      }
    }
    if w == 0 && i + 1 < t <= |src| { assert open + Depth(src, i, i + 1, x, y) == 0; }
  }

  lemma {:induction false} BalanceIs(src: string, i: nat, x: char, y: char, open: nat, t: nat)
    requires i <= |src| && open > 0
    ensures BalanceFrom(src, i, x, y, open) == Some(t) <==> Closes(src, i, t, x, y, open)
    decreases |src| - i
  {
    hide Closes;
    if i < |src| {
      ClosesStep(src, i, t, x, y, open);
      var w := open + Weight(src[i], x, y);
      if w > 0 { BalanceIs(src, i + 1, x, y, w, t); }
    } else {
      ClosesNowhere(src, i, t, x, y, open);
    }
  }

  lemma ClosesNowhere(src: string, i: nat, t: nat, x: char, y: char, open: nat)
    requires i >= |src|
    ensures !Closes(src, i, t, x, y, open)
  {
  }

  /** `%b` and two characters stand for a balanced text, with both of them outside. */
  lemma BalanceRule(src: string, pat: string, s: nat, p: nat, caps: seq<Cap>)
    requires s <= |src| && p + 1 < |pat| && pat[p] == '%' && pat[p + 1] == 'b'
    ensures var x, y, r := C(pat, p + 2), C(pat, p + 3), MatchFrom(src, pat, s, p, caps);
            if x == '\0' || y == '\0' then r == Raise(Unbalanced)
            else
              && p + 4 <= |pat|
              && (forall t: nat :: Balanced(src, s, t, x, y) ==> r == MatchFrom(src, pat, t, p + 4, caps))
              && ((forall t: nat :: !Balanced(src, s, t, x, y)) ==> r == Fail)
  {
    hide ItemStep, MatchBracket, Closes;
    assert StepAt(src, pat, s, p, caps) == EscStep(src, pat, s, p, caps);
    var x, y := C(pat, p + 2), C(pat, p + 3);
    if x != '\0' && y != '\0' {
      forall t: nat
        ensures Balance(src, s, x, y) == Some(t) <==> Balanced(src, s, t, x, y)
      {
        if s < |src| { BalanceIs(src, s + 1, x, y, 1, t); }
      }
    }
  }

  /** A pattern that breaks off behind `%`, or in a set, is refused. */
  lemma MalformedRule(src: string, pat: string, s: nat, p: nat, caps: seq<Cap>)
    requires s <= |src| && p < |pat|
    ensures pat[p] == '%' && C(pat, p + 1) == '\0' ==> MatchFrom(src, pat, s, p, caps) == Raise(EndsWithPercent)
    ensures pat[p] == '[' && (forall i :: p + 1 < i < |pat| ==> pat[i] != ']') ==>
              MatchFrom(src, pat, s, p, caps) == Raise(MissingBracket)
  {
    hide MatchBracket, Balance, Reps;
    if pat[p] == '[' && forall i :: p + 1 < i < |pat| ==> pat[i] != ']' {
      NoEnd(pat, if C(pat, p + 1) == '^' then p + 2 else p + 1);
    }
  }

  lemma {:induction false} NoEnd(pat: string, q: nat)
    requires forall i :: q < i < |pat| ==> pat[i] != ']'
    ensures SetEnd(pat, q) == None
    decreases |pat| - q
  {
    if C(pat, q) != '\0' { NoEnd(pat, if C(pat, q) == ESC && C(pat, q + 1) != '\0' then q + 2 else q + 1); }
  }
}
