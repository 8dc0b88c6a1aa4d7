/** `string.gsub` with a replacement string (`lstrlib.c`). */
module Substitution {
  import opened Common
  import opened Patterns
  import opened Matcher
  import opened StringBuffer

  // Where matches end

  /** Captures begin, and end, before `s`. */
  ghost predicate CapsOk(src: string, s: nat, caps: seq<Cap>) {
    forall i :: 0 <= i < |caps| ==> caps[i].init <= s && (caps[i].len >= 0 ==> caps[i].init + caps[i].len <= s)
  }

  ghost predicate EndsOk(src: string, s: nat, r: Res) {
    r.Done? ==> s <= r.e <= |src| && CapsOk(src, r.e, r.caps)
  }

  lemma {:induction false} MatchEnds(src: string, pat: string, s: nat, p: nat, caps: seq<Cap>)
    requires s <= |src| && p <= |pat| && CapsOk(src, s, caps)
    ensures EndsOk(src, s, MatchFrom(src, pat, s, p, caps))
    decreases |pat| - p, 0
  {
    hide StepAt;
    StepForward(src, pat, s, p, caps);
    match StepAt(src, pat, s, p, caps)
    case Go(s', p', caps') => MatchEnds(src, pat, s', p', caps');
    case Repeat(lo, hi, fewest, ep) =>
      if lo <= hi {
        if fewest { FewestEnds(src, pat, s, ep, caps, lo, hi); } else { MostEnds(src, pat, s, ep, caps, lo, hi); }
      }
    case _ =>
  }

  lemma StepForward(src: string, pat: string, s: nat, p: nat, caps: seq<Cap>)
    requires s <= |src| && p <= |pat| && CapsOk(src, s, caps)
    ensures var t := StepAt(src, pat, s, p, caps); t.Go? ==> s <= t.s && CapsOk(src, t.s, t.caps)
  {
    hide Reps, ClassEnd;
  }

  lemma {:induction false} MostEnds(src: string, pat: string, s: nat, ep: nat, caps: seq<Cap>, lo: nat, hi: nat)
    requires s + hi <= |src| && ep <= |pat| && lo <= hi && CapsOk(src, s, caps)
    ensures EndsOk(src, s, Most(src, pat, s, ep, caps, lo, hi))
    decreases |pat| - ep, 1 + hi - lo
  {
    MatchEnds(src, pat, s + hi, ep, caps);
    if lo < hi { MostEnds(src, pat, s, ep, caps, lo, hi - 1); }
  }

  lemma {:induction false} FewestEnds(src: string, pat: string, s: nat, ep: nat, caps: seq<Cap>, lo: nat, hi: nat)
    requires s + hi <= |src| && ep <= |pat| && lo <= hi && CapsOk(src, s, caps)
    ensures EndsOk(src, s, Fewest(src, pat, s, ep, caps, lo, hi))
    decreases |pat| - ep, 1 + hi - lo
  {
    MatchEnds(src, pat, s + lo, ep, caps);
    if lo < hi { FewestEnds(src, pat, s, ep, caps, lo + 1, hi); }
  }

  // The replacement

  function Digits(n: nat): string {
    if n < 10 then [('0' as int + n) as char] else Digits(n / 10) + [('0' as int + n % 10) as char]
  }

  /** `push_onecapture`: a string, or an error. */
  function OneCapture(src: string, caps: seq<Cap>, i: int, s: nat, e: nat): Option<string>
    requires s <= e <= |src|
  {
    if i < 0 || i >= |caps| then if i == 0 then Some(src[s..e]) else None
    else if caps[i].len == POSITION then Some(Digits(caps[i].init + 1))
    else if caps[i].len < 0 || caps[i].init + caps[i].len > |src| then None
    else Some(src[caps[i].init..caps[i].init + caps[i].len])
  }

  /** What one element of the replacement stands for, and where the next one begins. */
  function Element(news: string, i: nat, src: string, caps: seq<Cap>, s: nat, e: nat): (Option<string>, nat)
    requires i < |news| && s <= e <= |src|
  {
    if news[i] != ESC then (Some([news[i]]), i + 1)
    else
      var x := C(news, i + 1);
      (if !IsDigit(x) then Some([x])
       else if x == '0' then Some(src[s..e]) else OneCapture(src, caps, x as int - '1' as int, s, e), i + 2)
  }

  /** `add_s`: the replacement with its escapes expanded. */
  function Expand(news: string, i: nat, src: string, caps: seq<Cap>, s: nat, e: nat): Option<string>
    requires s <= e <= |src|
    decreases |news| - i
  {
    if i >= |news| then Some("")
    else
      var (t, j) := Element(news, i, src, caps, s, e);
      if t == None then None else Prepend(t.value, Expand(news, j, src, caps, s, e))
  }

  function Prepend(t: string, r: Option<string>): Option<string> { if r == None then None else Some(t + r.value) }

  /** One round of `str_gsub`: the text it adds, and where it goes on; or an error. */
  datatype Round = Bad | Round(text: string, pos: nat, n: nat)

  function RoundAt(src: string, pat: string, p0: nat, news: string, pos: nat, n: nat): (r: Round)
    requires pos <= |src| && p0 <= |pat|
    ensures r.Round? ==> pos <= r.pos <= |src|
  {
    match MatchFrom(src, pat, pos, p0, [])
    case Raise(_) => Bad
    case Fail => if pos < |src| then Round([src[pos]], pos + 1, n) else Round("", pos, n)
    case Done(e, caps) =>
      MatchEnds(src, pat, pos, p0, []);
      var t := Expand(news, 0, src, caps, pos, e);
      if t == None then Bad
      else if e > pos then Round(t.value, e, n + 1)
      else if pos < |src| then Round(t.value + [src[pos]], pos + 1, n + 1)
      else Round(t.value, pos, n + 1)
  }

  /** The result of `str_gsub` from `pos` on, and the number of substitutions; none if an error is raised. */
  function GsubFrom(src: string, pat: string, p0: nat, news: string, pos: nat, n: nat, max: int, anchor: bool)
    : Option<(string, nat)>
    requires pos <= |src| && p0 <= |pat|
    decreases |src| - pos
  {
    if n >= max then Some((src[pos..], n))
    else
      var r := RoundAt(src, pat, p0, news, pos, n);
      if r.Bad? then None
      else if r.pos == pos || anchor then Some((r.text + src[r.pos..], r.n))
      else
        var rest := GsubFrom(src, pat, p0, news, r.pos, r.n, max, anchor);
        if rest == None then None else Some((r.text + rest.value.0, rest.value.1))
  }

  /** An anchor in the pattern. */
  predicate Anchored(pat: string) { C(pat, 0) == '^' }

  function Gsub(src: string, pat: string, news: string, max: int): Option<(string, nat)> {
    GsubFrom(src, pat, if Anchored(pat) then 1 else 0, news, 0, 0, max, Anchored(pat))
  }

  // Replacing matches by themselves

  lemma ExpandWhole(src: string, caps: seq<Cap>, s: nat, e: nat)
    requires s <= e <= |src|
    ensures Expand("%0", 0, src, caps, s, e) == Some(src[s..e])
  {
    assert Expand("%0", 2, src, caps, s, e) == Some("");
    assert Element("%0", 0, src, caps, s, e) == (Some(src[s..e]), 2);
    assert src[s..e] + "" == src[s..e];
  }

  lemma {:induction false} WholeFrom(src: string, pat: string, p0: nat, pos: nat, n: nat, max: int, anchor: bool)
    requires pos <= |src| && p0 <= |pat|
    ensures var r := GsubFrom(src, pat, p0, "%0", pos, n, max, anchor); r.Some? ==> r.value.0 == src[pos..]
    decreases |src| - pos
  {
    var r := RoundAt(src, pat, p0, "%0", pos, n);
    if n < max && r.Round? {
      WholeRound(src, pat, p0, pos, n);
      assert src[pos..r.pos] + src[r.pos..] == src[pos..];
      if r.pos != pos && !anchor { WholeFrom(src, pat, p0, r.pos, r.n, max, anchor); }
    }
  }

  lemma WholeRound(src: string, pat: string, p0: nat, pos: nat, n: nat)
    requires pos <= |src| && p0 <= |pat|
    ensures var r := RoundAt(src, pat, p0, "%0", pos, n); r.Round? ==> r.text == src[pos..r.pos]
  {
    var m := MatchFrom(src, pat, pos, p0, []);
    if m.Done? {
      MatchEnds(src, pat, pos, p0, []);
      ExpandWhole(src, m.caps, pos, m.e);
    }
  }

  /** With the replacement "%0" the result is the source, whatever the pattern and the number of substitutions. */
  lemma WholeReplacement(src: string, pat: string, max: int)
    ensures var r := Gsub(src, pat, "%0", max); r.Some? ==> r.value.0 == src
  {
    WholeFrom(src, pat, if Anchored(pat) then 1 else 0, 0, 0, max, Anchored(pat));
  }

  // The methods

  /** `add_s`; false if an error is raised. */
  method AddS(b: Buffer, src: string, caps: seq<Cap>, s: nat, e: nat, news: string) returns (ok: bool)
    requires b.Valid() && s <= e <= |src|
    modifies b, b.buffer
    ensures b.Valid() && b.Base() == old(b.Base())
    ensures var t := Expand(news, 0, src, caps, s, e);
            ok == t.Some? && (ok ==> b.Contents() == old(b.Contents()) + t.value)
  {
    hide Element, Expand, Prepend, OneCapture, StringBuffer.Concat;
    var i := 0;
    ghost var done := "";
    PrependNothing(Expand(news, 0, src, caps, s, e));
    while i < |news|
      invariant 0 <= i && b.Valid() && b.Base() == old(b.Base()) && b.Contents() == old(b.Contents()) + done
      invariant Expand(news, 0, src, caps, s, e) == Prepend(done, Expand(news, i, src, caps, s, e))
      decreases |news| - i
    {
      ElementCases(news, i, src, caps, s, e);
      ExpandNext(news, i, src, caps, s, e, done);
      ghost var t := Element(news, i, src, caps, s, e).0;
      if news[i] != ESC {
        b.AddChar(news[i]);
      } else {
        i := i + 1;
        var x := C(news, i);
        if !IsDigit(x) {
          b.AddChar(x);
        } else if x == '0' {
          b.AddString(src[s..e]);
        } else {
          var v := OneCapture(src, caps, x as int - '1' as int, s, e);
          if v == None {
            return false;
          }
          b.AddValue(v.value);
        }
      }
      i := i + 1;
      PrependTwice(done, t.value, Expand(news, i, src, caps, s, e));
      done := done + t.value;
    }
    ExpandEnd(news, i, src, caps, s, e, done);
    ok := true;
  }

  lemma ExpandEnd(news: string, i: nat, src: string, caps: seq<Cap>, s: nat, e: nat, done: string)
    requires i >= |news| && s <= e <= |src|
    ensures Prepend(done, Expand(news, i, src, caps, s, e)) == Some(done)
  {
    assert done + "" == done;
  }

  lemma ExpandNext(news: string, i: nat, src: string, caps: seq<Cap>, s: nat, e: nat, done: string)
    requires i < |news| && s <= e <= |src|
    ensures var (t, j) := Element(news, i, src, caps, s, e);
            && (t == None ==> Prepend(done, Expand(news, i, src, caps, s, e)) == None)
            && (t.Some? ==> Expand(news, i, src, caps, s, e) == Prepend(t.value, Expand(news, j, src, caps, s, e)))
  {
    hide OneCapture;
  }

  lemma ElementCases(news: string, i: nat, src: string, caps: seq<Cap>, s: nat, e: nat)
    requires i < |news| && s <= e <= |src|
    ensures Element(news, i, src, caps, s, e) ==
              if news[i] != ESC then (Some([news[i]]), i + 1)
              else if !IsDigit(C(news, i + 1)) then (Some([C(news, i + 1)]), i + 2)
              else if C(news, i + 1) == '0' then (Some(src[s..e]), i + 2)
              else (OneCapture(src, caps, C(news, i + 1) as int - '1' as int, s, e), i + 2)
  {
  }

  lemma PrependTwice(a: string, b: string, r: Option<string>)
    ensures Prepend(a, Prepend(b, r)) == Prepend(a + b, r)
  {
    if r.Some? { assert a + (b + r.value) == a + b + r.value; }
  }

  lemma PrependNothing(r: Option<string>)
    ensures Prepend("", r) == r
  {
    if r.Some? { assert "" + r.value == r.value; }
  }

  /** One round of the loop of `str_gsub`. */
  method OneRound(ms: MatchState, b: Buffer, p0: nat, news: string, pos: nat, n: nat)
    returns (ok: bool, pos': nat, n': nat)
    requires ms.Valid() && b.Valid() && pos <= |ms.src| && p0 <= |ms.pat| && ms.capture != b.buffer as object
    modifies ms`level, ms.capture, b, b.buffer
    ensures ms.Valid() && b.Valid() && b.Base() == old(b.Base())
    ensures var r := RoundAt(ms.src, ms.pat, p0, news, pos, n);
            ok == r.Round? && (ok ==> b.Contents() == old(b.Contents()) + r.text && pos' == r.pos && n' == r.n)
  {
    hide MatchFrom, Expand;
    ms.level := 0;
    assert ms.Caps() == [];
    MatchEnds(ms.src, ms.pat, pos, p0, []);
    pos', n' := pos, n;
    var m := ms.Match(pos, p0);
    if m.Failed? { return false, pos', n'; }
    if m.At? {
      n' := n + 1;
      ok := AddS(b, ms.src, ms.Caps(), pos, m.e, news);
      if !ok { return; }
    }
    if m.At? && m.e > pos {
      pos' := m.e;
    } else if pos < |ms.src| {
      b.AddChar(ms.src[pos]);
      pos' := pos + 1;
    }
    ok := true;
  }

  /** `str_gsub`; none if an error is raised. */
  method StrGsub(src: string, pat: string, news: string, max: int, size: nat) returns (r: Option<(string, nat)>)
    requires size > 0
    ensures r == Gsub(src, pat, news, max)
  {
    hide MatchFrom, Expand, RoundAt, Concat;
    var anchor := Anchored(pat);
    var p0 := if anchor then 1 else 0;
    var n: nat, pos: nat := 0, 0;
    var ms := new MatchState(src, pat);
    var b := new Buffer(size, []);
    ghost var done := "";
    BothNothing(Gsub(src, pat, news, max));
    while n < max
      invariant pos <= |src| && p0 <= |pat| && ms.Valid() && ms.src == src && ms.pat == pat
      invariant fresh(ms) && fresh(ms.capture) && fresh(b) && fresh(b.buffer) && ms.capture != b.buffer as object
      invariant b.Valid() && b.Base() == [] && b.Contents() == done
      invariant Gsub(src, pat, news, max) == Both(done, GsubFrom(src, pat, p0, news, pos, n, max, anchor))
      decreases |src| - pos
    {
      ghost var q := RoundAt(src, pat, p0, news, pos, n);
      var start := pos;
      var ok, pos', n' := OneRound(ms, b, p0, news, pos, n);
      if !ok { return None; }
      GsubRound(src, pat, p0, news, pos, n, max, anchor, done);
      pos, n := pos', n';
      done := done + q.text;
      if pos == start || anchor { break; }
    }
    b.AddString(src[pos..]);
    b.PushResult();
    r := Some((b.stack[0], n));
  }

  function Both(t: string, r: Option<(string, nat)>): Option<(string, nat)> {
    if r == None then None else Some((t + r.value.0, r.value.1))
  }

  lemma BothNothing(r: Option<(string, nat)>)
    ensures Both("", r) == r
  {
    if r.Some? { assert "" + r.value.0 == r.value.0; }
  }

  lemma GsubRound(src: string, pat: string, p0: nat, news: string, pos: nat, n: nat, max: int, anchor: bool,
                  done: string)
    requires pos <= |src| && p0 <= |pat| && n < max && RoundAt(src, pat, p0, news, pos, n).Round?
    ensures var q := RoundAt(src, pat, p0, news, pos, n);
            Both(done, GsubFrom(src, pat, p0, news, pos, n, max, anchor)) ==
              if q.pos == pos || anchor then Some((done + q.text + src[q.pos..], q.n))
              else Both(done + q.text, GsubFrom(src, pat, p0, news, q.pos, q.n, max, anchor))
  {
    hide RoundAt;
    var q := RoundAt(src, pat, p0, news, pos, n);
    if q.pos == pos || anchor {
      assert done + (q.text + src[q.pos..]) == done + q.text + src[q.pos..];
    } else {
      var rest := GsubFrom(src, pat, p0, news, q.pos, q.n, max, anchor);
      if rest.Some? { assert done + (q.text + rest.value.0) == done + q.text + rest.value.0; }
    }
  }
}
