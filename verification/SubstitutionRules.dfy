/** What `string.gsub` replaces, and by what, told by the matches alone. */
module SubstitutionRules {
  import opened Common
  import opened Patterns
  import opened Substitution

  // Replacements

  /** A part of a replacement: a character, one behind `%`, or `%` and a digit. */
  datatype Piece = Char(c: char) | Behind(c: char) | Capture(d: nat)

  predicate PieceOk(x: Piece) {
    match x
    case Char(c) => c != '%'
    case Behind(c) => !('0' <= c <= '9')
    case Capture(d) => d <= 9
  }

  function PieceText(x: Piece): string {
    match x
    case Char(c) => [c]
    case Behind(c) => ['%', c]
    case Capture(d) => ['%', (48 + d % 10) as char]
  }

  function Written(xs: seq<Piece>): string { if xs == [] then "" else PieceText(xs[0]) + Written(xs[1..]) }

  /** The decimal number with this value. */
  predicate IsDecimal(t: string, n: nat) { t != "" && (forall c :: c in t ==> '0' <= c <= '9') && DecimalValue(t) == n }

  function DecimalValue(t: string): int {
    if t == "" then 0 else 10 * DecimalValue(t[..|t| - 1]) + (t[|t| - 1] as int - 48)
  }

  /**
    What a part stands for in the match from `s` to `e`: `%0` for the match, and so does `%1` if there are no captures;
    `%1` to `%9` for the captures, by text or by position.
   */
  predicate StandsFor(x: Piece, src: string, caps: seq<Cap>, s: nat, e: nat, t: string)
    requires s <= e <= |src|
  {
    match x
    case Char(c) => t == [c]
    case Behind(c) => t == [c]
    case Capture(d) =>
      if d == 0 || (d == 1 && caps == []) then t == src[s..e]
      else
        && d <= |caps| && caps[d - 1].len != UNFINISHED
        && if caps[d - 1].len == POSITION then IsDecimal(t, caps[d - 1].init + 1)
           else && 0 <= caps[d - 1].len && caps[d - 1].init + caps[d - 1].len <= |src|
                && t == src[caps[d - 1].init..caps[d - 1].init + caps[d - 1].len]
  }

  lemma {:induction false} DigitsDecimal(n: nat)
    ensures IsDecimal(Digits(n), n)
    decreases n
  {
    if n >= 10 {
      DigitsDecimal(n / 10);
      var t := Digits(n);
      assert t[..|t| - 1] == Digits(n / 10);
    } else {
      assert DecimalValue(Digits(n)[..0]) == 0;
    }
  }

  /** One part: it is read as written, and stands for what it should, or is an error. */
  lemma PieceExpands(x: Piece, rest: string, pre: string, src: string, caps: seq<Cap>, s: nat, e: nat)
    requires PieceOk(x) && s <= e <= |src| && CapsOk(src, e, caps)
    ensures var news := pre + PieceText(x) + rest;
            |pre| < |news| && var (t, j) := Substitution.Element(news, |pre|, src, caps, s, e);
            && j == |pre| + |PieceText(x)|
            && (t.Some? ==> StandsFor(x, src, caps, s, e, t.value))
            && (t == None ==> NoText(x, src, caps, s, e))
  {
    hide IsDecimal, Digits;
    var news := pre + PieceText(x) + rest;
    assert news[|pre|] == PieceText(x)[0];
    if !x.Char? { assert C(news, |pre| + 1) == news[|pre| + 1] == PieceText(x)[1]; }
    if x.Capture? && 0 < x.d <= |caps| { DigitsDecimal(caps[x.d - 1].init + 1); }
  }

  function Joined(us: seq<string>): string { if us == [] then "" else us[0] + Joined(us[1..]) }

  /** The text for a match is what the parts stand for, one after the other. */
  ghost predicate Stands(xs: seq<Piece>, src: string, caps: seq<Cap>, s: nat, e: nat, t: string)
    requires s <= e <= |src|
  {
    exists us: seq<string> ::
      |us| == |xs| && t == Joined(us) && forall i :: 0 <= i < |xs| ==> StandsFor(xs[i], src, caps, s, e, us[i])
  }

  ghost predicate NoText(x: Piece, src: string, caps: seq<Cap>, s: nat, e: nat)
    requires s <= e <= |src|
  {
    forall u :: !StandsFor(x, src, caps, s, e, u)
  }

  /** Some part stands for nothing. */
  ghost predicate StandsForNothing(xs: seq<Piece>, src: string, caps: seq<Cap>, s: nat, e: nat)
    requires s <= e <= |src|
  {
    exists i :: 0 <= i < |xs| && NoText(xs[i], src, caps, s, e)
  }

  lemma StandsCons(xs: seq<Piece>, src: string, caps: seq<Cap>, s: nat, e: nat, t: string, u: string)
    requires xs != [] && s <= e <= |src| && StandsFor(xs[0], src, caps, s, e, t) && Stands(xs[1..], src, caps, s, e, u)
    ensures Stands(xs, src, caps, s, e, t + u)
  {
    hide StandsFor;
    var ys := xs[1..];
    var us: seq<string> :|
      |us| == |ys| && u == Joined(us) && forall i :: 0 <= i < |ys| ==> StandsFor(ys[i], src, caps, s, e, us[i]);
    var vs := [t] + us;
    assert vs[1..] == us;
    forall i | 0 <= i < |xs|
      ensures StandsFor(xs[i], src, caps, s, e, vs[i])
    {
      if i > 0 { assert xs[i] == ys[i - 1]; }
    }
  }

  lemma NothingCons(xs: seq<Piece>, src: string, caps: seq<Cap>, s: nat, e: nat)
    requires xs != [] && s <= e <= |src|
    requires NoText(xs[0], src, caps, s, e) || StandsForNothing(xs[1..], src, caps, s, e)
    ensures StandsForNothing(xs, src, caps, s, e)
  {
    hide NoText;
    if StandsForNothing(xs[1..], src, caps, s, e) {
      var i :| 0 <= i < |xs[1..]| && NoText(xs[1..][i], src, caps, s, e);
      assert xs[i + 1] == xs[1..][i];
    }
  }

  lemma {:induction false} ExpandsFrom(xs: seq<Piece>, pre: string, src: string, caps: seq<Cap>, s: nat, e: nat)
    requires (forall x :: x in xs ==> PieceOk(x)) && s <= e <= |src| && CapsOk(src, e, caps)
    ensures var r := Expand(pre + Written(xs), |pre|, src, caps, s, e);
            if r == None then StandsForNothing(xs, src, caps, s, e) else Stands(xs, src, caps, s, e, r.value)
    decreases |xs|
  {
    hide Substitution.Element, StandsFor, Stands, StandsForNothing, PieceText, NoText;
    var news := pre + Written(xs);
    if xs == [] {
      StandsNothing(src, caps, s, e);
    } else {
      var x, rest := xs[0], Written(xs[1..]);
      assert news == pre + PieceText(x) + rest;
      PieceExpands(x, rest, pre, src, caps, s, e);
      var q := pre + PieceText(x);
      ExpandsFrom(xs[1..], q, src, caps, s, e);
      var t := Substitution.Element(news, |pre|, src, caps, s, e).0;
      var r := Expand(news, |q|, src, caps, s, e);
      if t.Some? && r.Some? {
        StandsCons(xs, src, caps, s, e, t.value, r.value);
      } else {
        NothingCons(xs, src, caps, s, e);
      }
    }
  }

  lemma StandsNothing(src: string, caps: seq<Cap>, s: nat, e: nat)
    requires s <= e <= |src|
    ensures Stands([], src, caps, s, e, "")
  {
    var us: seq<string> := [];
    assert Joined(us) == "";
  }

  /** What the replacement text for a match is, by the parts of the replacement; none if a capture does not exist. */
  lemma ReplacementRule(xs: seq<Piece>, src: string, caps: seq<Cap>, s: nat, e: nat)
    requires (forall x :: x in xs ==> PieceOk(x)) && s <= e <= |src| && CapsOk(src, e, caps)
    ensures var r := Expand(Written(xs), 0, src, caps, s, e);
            if r == None then StandsForNothing(xs, src, caps, s, e) else Stands(xs, src, caps, s, e, r.value)
  {
    assert "" + Written(xs) == Written(xs);
    ExpandsFrom(xs, "", src, caps, s, e);
  }

  // Matches

  datatype Hit = Hit(s: nat, e: nat, caps: seq<Cap>)

  ghost predicate IsHit(src: string, pat: string, p0: nat, h: Hit)
    requires p0 <= |pat|
  {
    h.s <= h.e <= |src| && MatchFrom(src, pat, h.s, p0, []) == Done(h.e, h.caps)
  }

  /** No match begins from `a` to before `b`. */
  ghost predicate NoHit(src: string, pat: string, p0: nat, a: nat, b: nat)
    requires b <= |src| + 1 && p0 <= |pat|
  {
    forall q: nat :: a <= q < b ==> MatchFrom(src, pat, q, p0, []) == Fail
  }

  /** Where the search goes on behind a match: at least one place further. */
  function After(h: Hit): nat { if h.e > h.s then h.e else h.s + 1 }

  function SearchFrom(pos: nat, hits: seq<Hit>, i: nat): nat
    requires i <= |hits|
  {
    if i == 0 then pos else After(hits[i - 1])
  }

  /** The match is the first from `a` on. */
  ghost predicate FirstHit(src: string, pat: string, p0: nat, a: nat, h: Hit)
    requires p0 <= |pat|
  {
    IsHit(src, pat, p0, h) && a <= h.s && NoHit(src, pat, p0, a, h.s)
  }

  /** The matches in order, each the first behind the one before. */
  ghost predicate Hits(src: string, pat: string, p0: nat, pos: nat, hits: seq<Hit>)
    requires p0 <= |pat|
  {
    forall i :: 0 <= i < |hits| ==> FirstHit(src, pat, p0, SearchFrom(pos, hits, i), hits[i])
  }

  function TextFor(news: string, src: string, h: Hit): Option<string> {
    if h.s <= h.e <= |src| then Expand(news, 0, src, h.caps, h.s, h.e) else None
  }

  ghost predicate AllTexts(news: string, src: string, hits: seq<Hit>) {
    forall i :: 0 <= i < |hits| ==> TextFor(news, src, hits[i]).Some?
  }

  /** The source from `pos` on with just the matches replaced. */
  function Replaced(src: string, pos: nat, hits: seq<Hit>, news: string): string
    decreases |hits|
  {
    if hits == [] then (if pos <= |src| then src[pos..] else "")
    else
      (if pos <= hits[0].s <= |src| then src[pos..hits[0].s] else "")
      + (var t := TextFor(news, src, hits[0]); if t.Some? then t.value else "")
      + Replaced(src, hits[0].e, hits[1..], news)
  }

  /** The search breaks off behind the matches: the matcher raises an error, or the match cannot be replaced. */
  ghost predicate BreaksOff(src: string, pat: string, p0: nat, news: string, a: nat) {
    p0 <= |pat| && exists q: nat ::
      && a <= q <= |src| && NoHit(src, pat, p0, a, q)
      && var r := MatchFrom(src, pat, q, p0, []);
         r.Raise? || (r.Done? && TextFor(news, src, Hit(q, r.e, r.caps)) == None)
  }

  // Building the list from its head

  lemma HitsSkip(src: string, pat: string, p0: nat, pos: nat, hits: seq<Hit>)
    requires p0 <= |pat| && pos < |src| && MatchFrom(src, pat, pos, p0, []) == Fail && Hits(src, pat, p0, pos + 1, hits)
    ensures Hits(src, pat, p0, pos, hits)
  {
    hide MatchFrom, IsHit, FirstHit;
    forall i | 0 <= i < |hits|
      ensures FirstHit(src, pat, p0, SearchFrom(pos, hits, i), hits[i])
    {
      assert FirstHit(src, pat, p0, SearchFrom(pos + 1, hits, i), hits[i]);
      if i == 0 { FirstSkip(src, pat, p0, pos, hits[0]); }
    }
  }

  lemma FirstSkip(src: string, pat: string, p0: nat, pos: nat, h: Hit)
    requires p0 <= |pat| && pos < |src| && MatchFrom(src, pat, pos, p0, []) == Fail
    requires FirstHit(src, pat, p0, pos + 1, h)
    ensures FirstHit(src, pat, p0, pos, h)
  {
    hide MatchFrom;
    NoHitSkip(src, pat, p0, pos, h.s);
  }

  lemma NoHitSkip(src: string, pat: string, p0: nat, pos: nat, b: nat)
    requires p0 <= |pat| && pos <= |src| && MatchFrom(src, pat, pos, p0, []) == Fail && b <= |src| + 1
    requires NoHit(src, pat, p0, pos + 1, b)
    ensures NoHit(src, pat, p0, pos, b)
  {
    hide MatchFrom;
  }

  lemma HitsCons(src: string, pat: string, p0: nat, h: Hit, hits: seq<Hit>)
    requires p0 <= |pat| && IsHit(src, pat, p0, h) && Hits(src, pat, p0, After(h), hits)
    ensures Hits(src, pat, p0, h.s, [h] + hits)
    ensures SearchFrom(h.s, [h] + hits, |hits| + 1) == SearchFrom(After(h), hits, |hits|)
  {
    hide MatchFrom, IsHit, FirstHit;
    var l := [h] + hits;
    HitHere(src, pat, p0, h);
    forall i | 0 <= i < |l|
      ensures FirstHit(src, pat, p0, SearchFrom(h.s, l, i), l[i])
    {
      if i > 0 {
        assert FirstHit(src, pat, p0, SearchFrom(After(h), hits, i - 1), hits[i - 1]);
        assert SearchFrom(h.s, l, i) == SearchFrom(After(h), hits, i - 1);
      }
    }
  }

  lemma HitHere(src: string, pat: string, p0: nat, h: Hit)
    requires p0 <= |pat| && IsHit(src, pat, p0, h)
    ensures FirstHit(src, pat, p0, h.s, h)
  {
    hide MatchFrom;
  }

  // The result

  /** Just the text from `pos` is copied where no match begins. */
  lemma ReplacedSkip(src: string, pos: nat, hits: seq<Hit>, news: string)
    requires pos < |src| && (hits != [] ==> pos + 1 <= hits[0].s <= |src|)
    ensures Replaced(src, pos, hits, news) == [src[pos]] + Replaced(src, pos + 1, hits, news)
  {
    hide TextFor;
    if hits == [] {
      assert src[pos..] == [src[pos]] + src[pos + 1..];
    } else {
      var k := hits[0].s;
      var t := TextFor(news, src, hits[0]);
      var u, v := if t.Some? then t.value else "", Replaced(src, hits[0].e, hits[1..], news);
      assert src[pos..k] == [src[pos]] + src[pos + 1..k];
      assert [src[pos]] + src[pos + 1..k] + u + v == [src[pos]] + (src[pos + 1..k] + u + v);
    }
  }

  lemma ReplacedCons(src: string, h: Hit, hits: seq<Hit>, news: string)
    requires h.s <= h.e <= |src| && TextFor(news, src, h).Some?
    ensures Replaced(src, h.s, [h] + hits, news) == TextFor(news, src, h).value + Replaced(src, h.e, hits, news)
  {
    var l := [h] + hits;
    assert l[1..] == hits && src[h.s..h.s] == "";
  }

  /** What the loop does from a place on, with `n` substitutions done. */
  ghost predicate LoopDoes(src: string, pat: string, p0: nat, news: string, pos: nat, n: nat, max: int,
                           r: Option<(string, nat)>, hits: seq<Hit>)
    requires pos <= |src| && p0 <= |pat|
  {
    var a := SearchFrom(pos, hits, |hits|);
    && Hits(src, pat, p0, pos, hits) && AllTexts(news, src, hits)
    && (hits != [] ==> n + |hits| <= max)
    && if r == None then n + |hits| < max && BreaksOff(src, pat, p0, news, a)
       else && r.value == (Replaced(src, pos, hits, news), n + |hits|)
            && (n + |hits| < max ==> NoHit(src, pat, p0, a, |src| + 1))
  }

  lemma LoopSkips(src: string, pat: string, p0: nat, news: string, pos: nat, n: nat, max: int,
                  r: Option<(string, nat)>, hits: seq<Hit>)
    requires pos < |src| && p0 <= |pat| && MatchFrom(src, pat, pos, p0, []) == Fail
    requires LoopDoes(src, pat, p0, news, pos + 1, n, max, r, hits)
    ensures LoopDoes(src, pat, p0, news, pos, n, max,
                     Put([src[pos]], r), hits)
  {
    hide MatchFrom, IsHit, TextFor, Replaced, NoHit;
    HitsSkip(src, pat, p0, pos, hits);
    if hits == [] {
      if r == None { BreaksSkip(src, pat, p0, news, pos); }
      else if n < max { NoHitSkip(src, pat, p0, pos, |src| + 1); }
    } else {
      assert FirstHit(src, pat, p0, SearchFrom(pos + 1, hits, 0), hits[0]);
      HitIn(src, pat, p0, hits[0]);
    }
    ReplacedSkip(src, pos, hits, news);
  }

  lemma HitIn(src: string, pat: string, p0: nat, h: Hit)
    requires p0 <= |pat| && IsHit(src, pat, p0, h)
    ensures h.s <= h.e <= |src|
  {
    hide MatchFrom;
  }

  lemma BreaksSkip(src: string, pat: string, p0: nat, news: string, pos: nat)
    requires p0 <= |pat| && pos < |src| && MatchFrom(src, pat, pos, p0, []) == Fail
    requires BreaksOff(src, pat, p0, news, pos + 1)
    ensures BreaksOff(src, pat, p0, news, pos)
  {
    hide MatchFrom, TextFor, NoHit;
    var q: nat :| && pos + 1 <= q <= |src| && NoHit(src, pat, p0, pos + 1, q)
                  && var r := MatchFrom(src, pat, q, p0, []);
                     r.Raise? || (r.Done? && TextFor(news, src, Hit(q, r.e, r.caps)) == None);
    NoHitSkip(src, pat, p0, pos, q);
  }

  lemma BreaksHere(src: string, pat: string, p0: nat, news: string, pos: nat)
    requires p0 <= |pat| && pos <= |src|
    requires var r := MatchFrom(src, pat, pos, p0, []);
             r.Raise? || (r.Done? && TextFor(news, src, Hit(pos, r.e, r.caps)) == None)
    ensures BreaksOff(src, pat, p0, news, pos)
  {
    hide MatchFrom, TextFor;
    assert NoHit(src, pat, p0, pos, pos);
  }

  /** A match is replaced, and the loop goes on behind it. */
  lemma LoopReplaces(src: string, pat: string, p0: nat, news: string, h: Hit, n: nat, max: int,
                     r: Option<(string, nat)>, hits: seq<Hit>)
    requires p0 <= |pat| && IsHit(src, pat, p0, h) && After(h) <= |src| && TextFor(news, src, h).Some? && n < max
    requires LoopDoes(src, pat, p0, news, After(h), n + 1, max, r, hits)
    ensures h.s <= |src|
    ensures LoopDoes(src, pat, p0, news, h.s, n, max,
                     Put(TextFor(news, src, h).value + src[h.e..After(h)], r), [h] + hits)
  {
    hide MatchFrom, IsHit, TextFor, Replaced, NoHit, BreaksOff, FirstHit;
    HitIn(src, pat, p0, h);
    HitsCons(src, pat, p0, h, hits);
    TextsCons(news, src, h, hits);
    if hits != [] {
      assert FirstHit(src, pat, p0, SearchFrom(After(h), hits, 0), hits[0]);
      FirstIn(src, pat, p0, After(h), hits[0]);
    }
    ReplacedOver(src, h, hits, news);
    if r.Some? { Regroup(TextFor(news, src, h).value, src[h.e..After(h)], r.value.0); }
  }

  lemma Regroup(a: string, b: string, c: string)
    ensures a + b + c == a + (b + c)
  {
  }

  lemma FirstIn(src: string, pat: string, p0: nat, a: nat, h: Hit)
    requires p0 <= |pat| && FirstHit(src, pat, p0, a, h)
    ensures a <= h.s <= h.e <= |src|
  {
    hide MatchFrom;
  }

  lemma TextsCons(news: string, src: string, h: Hit, hits: seq<Hit>)
    requires TextFor(news, src, h).Some? && AllTexts(news, src, hits)
    ensures AllTexts(news, src, [h] + hits)
  {
    hide TextFor;
    var l := [h] + hits;
    assert forall i :: 0 < i < |l| ==> l[i] == hits[i - 1];
  }

  lemma ReplacedOver(src: string, h: Hit, hits: seq<Hit>, news: string)
    requires h.s <= h.e <= |src| && After(h) <= |src| && TextFor(news, src, h).Some?
    requires hits != [] ==> After(h) <= hits[0].s <= |src|
    ensures Replaced(src, h.s, [h] + hits, news) ==
            TextFor(news, src, h).value + (src[h.e..After(h)] + Replaced(src, After(h), hits, news))
  {
    hide TextFor, Replaced;
    ReplacedCons(src, h, hits, news);
    if After(h) > h.e {
      ReplacedSkip(src, h.e, hits, news);
      assert src[h.e..After(h)] == [src[h.e]];
    } else {
      assert src[h.e..After(h)] == "";
    }
  }

  /** An empty match at the end of the source is the last. */
  lemma LoopEnds(src: string, pat: string, p0: nat, news: string, h: Hit, n: nat, max: int)
    requires p0 <= |pat| && IsHit(src, pat, p0, h) && h.s == h.e == |src| && TextFor(news, src, h).Some? && n < max
    ensures LoopDoes(src, pat, p0, news, h.s, n, max, Some((TextFor(news, src, h).value, n + 1)), [h])
  {
    hide MatchFrom, IsHit, TextFor;
    HitsCons(src, pat, p0, h, []);
    assert [h] + [] == [h];
    ReplacedCons(src, h, [], news);
    assert TextFor(news, src, h).value + "" == TextFor(news, src, h).value;
  }

  /** One round, by what the matcher gives. */
  lemma GsubStep(src: string, pat: string, p0: nat, news: string, pos: nat, n: nat, max: int)
    requires pos <= |src| && p0 <= |pat|
    ensures var m, r := MatchFrom(src, pat, pos, p0, []), GsubFrom(src, pat, p0, news, pos, n, max, false);
            if n >= max then r == Some((src[pos..], n))
            else if m.Raise? then r == None
            else if m == Fail then
              r == if pos < |src| then Put([src[pos]], GsubFrom(src, pat, p0, news, pos + 1, n, max, false))
                   else Some((src[pos..], n))
            else
              && pos <= m.e <= |src|
              && var h := Hit(pos, m.e, m.caps);
                 var t := TextFor(news, src, h);
                 if t == None then r == None
                 else if After(h) > |src| then r == Some((t.value, n + 1))
                 else r == Put(t.value + src[h.e..After(h)], GsubFrom(src, pat, p0, news, After(h), n + 1, max, false))
  {
    hide MatchFrom, Expand;
    MatchEnds(src, pat, pos, p0, []);
    var m := MatchFrom(src, pat, pos, p0, []);
    assert "" + src[pos..] == src[pos..];
    if m.Done? {
      var t := Expand(news, 0, src, m.caps, pos, m.e);
      if t.Some? {
        if m.e > pos { assert t.value + src[m.e..m.e] == t.value; }
        else if pos < |src| { assert src[pos..pos + 1] == [src[pos]]; }
        else { assert t.value + src[pos..] == t.value; }
      }
    }
  }

  function Put(t: string, r: Option<(string, nat)>): Option<(string, nat)> {
    if r == None then None else Some((t + r.value.0, r.value.1))
  }

  lemma {:induction false} LoopExact(src: string, pat: string, p0: nat, news: string, pos: nat, n: nat, max: int)
    returns (hits: seq<Hit>)
    requires pos <= |src| && p0 <= |pat|
    ensures LoopDoes(src, pat, p0, news, pos, n, max, GsubFrom(src, pat, p0, news, pos, n, max, false), hits)
    decreases |src| - pos
  {
    hide MatchFrom, TextFor, LoopDoes, IsHit, NoHit, GsubFrom, BreaksOff;
    hits := [];
    GsubStep(src, pat, p0, news, pos, n, max);
    var m := MatchFrom(src, pat, pos, p0, []);
    if n >= max {
      LoopStops(src, pat, p0, news, pos, n, max);
    } else if m.Raise? {
      BreaksHere(src, pat, p0, news, pos);
      LoopFails(src, pat, p0, news, pos, n, max);
    } else if m == Fail {
      if pos < |src| {
        hits := LoopExact(src, pat, p0, news, pos + 1, n, max);
        LoopSkips(src, pat, p0, news, pos, n, max, GsubFrom(src, pat, p0, news, pos + 1, n, max, false), hits);
      } else {
        LoopNone(src, pat, p0, news, n, max);
      }
    } else {
      var h := Hit(pos, m.e, m.caps);
      HitIs(src, pat, p0, h);
      if TextFor(news, src, h) == None {
        BreaksHere(src, pat, p0, news, pos);
        LoopFails(src, pat, p0, news, pos, n, max);
      } else if After(h) > |src| {
        LoopEnds(src, pat, p0, news, h, n, max);
        hits := [h];
      } else {
        var rest := LoopExact(src, pat, p0, news, After(h), n + 1, max);
        LoopReplaces(src, pat, p0, news, h, n, max, GsubFrom(src, pat, p0, news, After(h), n + 1, max, false), rest);
        hits := [h] + rest;
      }
    }
  }

  lemma HitIs(src: string, pat: string, p0: nat, h: Hit)
    requires h.s <= h.e <= |src| && p0 <= |pat| && MatchFrom(src, pat, h.s, p0, []) == Done(h.e, h.caps)
    ensures IsHit(src, pat, p0, h)
  {
  }

  lemma LoopStops(src: string, pat: string, p0: nat, news: string, pos: nat, n: nat, max: int)
    requires pos <= |src| && p0 <= |pat| && n >= max
    ensures LoopDoes(src, pat, p0, news, pos, n, max, Some((src[pos..], n)), [])
  {
    hide MatchFrom;
  }

  lemma LoopFails(src: string, pat: string, p0: nat, news: string, pos: nat, n: nat, max: int)
    requires pos <= |src| && p0 <= |pat| && n < max && BreaksOff(src, pat, p0, news, pos)
    ensures LoopDoes(src, pat, p0, news, pos, n, max, None, [])
  {
    hide MatchFrom, BreaksOff;
  }

  lemma LoopNone(src: string, pat: string, p0: nat, news: string, n: nat, max: int)
    requires p0 <= |pat| && n < max && MatchFrom(src, pat, |src|, p0, []) == Fail
    ensures LoopDoes(src, pat, p0, news, |src|, n, max, Some((src[|src|..], n)), [])
  {
    hide MatchFrom;
  }

  /** The one round of an anchored pattern, by what the matcher gives at the beginning. */
  predicate AnchoredDoes(src: string, news: string, m: Res, r: Option<(string, nat)>) {
    if m.Raise? then r == None
    else if m == Fail then r == Some((src, 0))
    else
      m.e <= |src|
      && var t := TextFor(news, src, Hit(0, m.e, m.caps));
         r == if t == None then None else Some((t.value + src[m.e..], 1))
  }

  /**
    The result of `string.gsub`: the source with just the matches replaced, and their number. The matches are the
    first one and then each the first behind the one before, an empty one being left by one place, up to the limit or
    to the end of the source; an anchored pattern is tried at the beginning only. It is an error if the matcher
    raises one before the limit is reached, or if the replacement names a capture that does not exist.
   */
  lemma GsubRule(src: string, pat: string, news: string, max: int)
    ensures var r := Gsub(src, pat, news, max);
            if C(pat, 0) != '^' then exists hits :: LoopDoes(src, pat, 0, news, 0, 0, max, r, hits)
            else if max <= 0 then r == Some((src, 0))
            else AnchoredDoes(src, news, MatchFrom(src, pat, 0, 1, []), r)
  {
    hide MatchFrom, Expand;
    assert src[0..] == src;
    if C(pat, 0) != '^' {
      var hits := LoopExact(src, pat, 0, news, 0, 0, max);
      assert Gsub(src, pat, news, max) == GsubFrom(src, pat, 0, news, 0, 0, max, false);
    } else if max > 0 {
      MatchEnds(src, pat, 0, 1, []);
      AnchoredRound(src, pat, news);
    }
  }

  lemma AnchoredRound(src: string, pat: string, news: string)
    requires C(pat, 0) == '^' && EndsOk(src, 0, MatchFrom(src, pat, 0, 1, []))
    ensures var q := RoundAt(src, pat, 1, news, 0, 0);
            AnchoredDoes(src, news, MatchFrom(src, pat, 0, 1, []),
                         if q.Bad? then None else Some((q.text + src[q.pos..], q.n)))
  {
    hide MatchFrom, Expand;
    var m := MatchFrom(src, pat, 0, 1, []);
    assert "" + src[0..] == src;
    if src != "" {
      assert [src[0]] + src[1..] == src && src[0..] == src;
      if m.Done? && m.e == 0 {
        var t := TextFor(news, src, Hit(0, 0, m.caps));
        if t.Some? { assert t.value + [src[0]] + src[1..] == t.value + src[0..]; }
      }
    }
  }
}
