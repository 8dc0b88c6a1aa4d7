/** Code after code: jumps to the end of the first part go on in the second, and its exits stay exits. */
module CodeGenSeq {
  import opened Common
  import opened JumpCode
  import opened CodeGen
  import opened CodeGenRun
  import opened CodeGenSem
  import opened CodeGenCond

  /** The descriptor of the second part, with the lists of the first. */
  function Both(d: ExpDesc, g: ExpDesc): ExpDesc { ExpDesc(d.k, d.t + g.t, d.f + g.f) }

  /** A LOADNIL at the end of `s` is still the same. */
  predicate Unwidened(s: State, r: State) {
    0 < |s.code| <= |r.code| && s.code[|s.code| - 1].LoadNil? ==> r.code[|s.code| - 1] == s.code[|s.code| - 1]
  }

  /** From `s0` to `s`, with exits `g`, and on to `r`. */
  ghost predicate Follows(s0: State, s: State, g: ExpDesc, r: State, d: ExpDesc) {
    Base(s0, s, g) && !g.k.VJMP? && Base(s, r, d) && KindNew(s, d.k) && Unwidened(s, r)
  }

  lemma FollowsParts(s0: State, s: State, g: ExpDesc, r: State, d: ExpDesc)
    requires Follows(s0, s, g, r, d)
    ensures Start(s0) && Start(s) && Grown(s0, s) && Grown(s, r) && Lists(s, g) && Lists(r, d) && WellFormed(s.code)
            && WellFormed(r.code)
    ensures Recent(s0, s.jpc) && Recent(s0, g.t + g.f) && Recent(s, r.jpc) && Recent(s, d.t + d.f)
    ensures (d.k.VJMP? ==> d.k.jump > |s.code|) && !g.k.VJMP? && Unwidened(s, r) && KindNew(s, d.k)
    ensures |s0.code| <= |s.code| <= |r.code|
  {
  }

  lemma GrownContinues(s: State, r: State)
    requires Start(s) && Grown(s, r) && Unwidened(s, r)
    ensures Continues(s.code, r.code)
  {
    forall i | 0 <= i < |s.code|
      ensures SameAt(s.code, r.code, i)
    {
      assert GrownAt(s, r, i) && OkAt(s.code, i);
      if i in s.jpc { assert Pending(s.code, i); }
      if i + 1 in s.jpc { assert Pending(s.code, i + 1); }
    }
  }

  /** A jump that waits elsewhere still does, under the same control. */
  lemma GrownPending(s: State, r: State, j: nat, q: Regs)
    requires Start(s) && Grown(s, r) && Pending(s.code, j) && j !in s.jpc
    ensures Pending(r.code, j) && TagAt(r.code, j, q) == TagAt(s.code, j, q)
            && Stored(s.code, j, q) == Stored(r.code, j, q) == q
  {
    assert GrownAt(s, r, j);
    if j > 0 {
      assert GrownAt(s, r, j - 1) && OkAt(s.code, j - 1);
      if j - 1 in s.jpc { assert Pending(s.code, j - 1); }
    }
  }

  // The lists

  lemma DistinctInsert(p: seq<nat>, t: seq<nat>, f: seq<nat>, w: seq<nat>, gt: seq<nat>, gf: seq<nat>)
    requires Distinct(p + t + f + w) && Distinct(gt + gf)
    requires forall x :: x in gt || x in gf ==> x !in p && x !in t && x !in f && x !in w
    ensures Distinct(p + (t + gt) + (f + gf) + w)
  {
    hide Distinct;
    DistinctParts(p + t + f, w);
    DistinctParts(p + t, f);
    DistinctParts(p, t);
    DistinctParts(gt, gf);
    assert forall x :: x in p || x in t ==> x in p + t;
    assert forall x :: x in p + t || x in f ==> x in p + t + f;
    DistinctJoin(t, gt);
    DistinctJoin(f, gf);
    DistinctJoin(p, t + gt);
    DistinctJoin(p + (t + gt), f + gf);
    DistinctJoin(p + (t + gt) + (f + gf), w);
  }

  /** The exits of the first part are older than those of the second, and lead nowhere yet. */
  lemma ExitsApart(s0: State, s: State, g: ExpDesc, r: State, d: ExpDesc)
    requires Follows(s0, s, g, r, d)
    ensures forall x :: x in g.t || x in g.f ==>
              Pending(s.code, x) && x !in s.jpc && x < |s.code| && x !in r.jpc && x !in d.t && x !in d.f
                  && x !in JumpOf(d.k)
  {
    hide Follows, WellFormed, Start;
    FollowsParts(s0, s, g, r, d);
    HeldParts(s, g);
    HeldPending(s, g);
    assert forall x :: x in d.t || x in d.f ==> x in d.t + d.f;
  }

  lemma BothLists(s0: State, s: State, g: ExpDesc, r: State, d: ExpDesc)
    requires Follows(s0, s, g, r, d)
    ensures Lists(r, Both(d, g)) && Recent(s0, r.jpc) && Recent(s0, Both(d, g).t + Both(d, g).f)
  {
    hide Follows, WellFormed, Start, Distinct, GrownAt;
    FollowsParts(s0, s, g, r, d);
    ExitsApart(s0, s, g, r, d);
    HeldParts(s, g);
    HeldParts(r, d);
    HeldPending(r, d);
    var b := Both(d, g);
    DistinctInsert(r.jpc, d.t, d.f, JumpOf(d.k), g.t, g.f);
    forall x | x in Held(r, b)
      ensures Pending(r.code, x)
    {
      if x in g.t || x in g.f { GrownPending(s, r, x, map[]); } else { assert x in Held(r, d); }
    }
    BothRecent(s0, s, g, r, d);
  }

  lemma BothRecent(s0: State, s: State, g: ExpDesc, r: State, d: ExpDesc)
    requires Recent(s0, s.jpc) && Recent(s0, g.t + g.f) && Recent(s, r.jpc) && Recent(s, d.t + d.f)
             && |s0.code| <= |s.code|
    ensures Recent(s0, r.jpc) && Recent(s0, Both(d, g).t + Both(d, g).f)
  {
    var b := Both(d, g);
    forall x | x in b.t + b.f && x < |s0.code|
      ensures x in s0.jpc
    {
      if x in g.t || x in g.f { assert x in g.t + g.f; } else { assert x in d.t + d.f; }
    }
  }

  lemma BothGrownAt(s0: State, s: State, g: ExpDesc, r: State, d: ExpDesc, i: nat)
    requires Follows(s0, s, g, r, d) && i < |s0.code|
    ensures |s0.code| <= |r.code| && GrownAt(s0, r, i)
  {
    hide Follows;
    FollowsParts(s0, s, g, r, d);
    HeldParts(s, g);
    assert GrownAt(s0, s, i) && GrownAt(s, r, i) && OkAt(s0.code, i);
    if i in s.jpc { assert Pending(s.code, i); }
    if i in s0.jpc { assert Pending(s0.code, i); }
    if i + 1 in s.jpc { assert Pending(s.code, i + 1); }
  }

  lemma BothBase(s0: State, s: State, g: ExpDesc, r: State, d: ExpDesc)
    requires Follows(s0, s, g, r, d)
    ensures Base(s0, r, Both(d, g)) && KindNew(s0, d.k) && s0.consts <= r.consts && r.nactvar == s0.nactvar
  {
    hide Follows, WellFormed, Start, GrownAt, Lists;
    FollowsParts(s0, s, g, r, d);
    BothLists(s0, s, g, r, d);
    forall i | 0 <= i < |s0.code|
      ensures GrownAt(s0, r, i)
    {
      BothGrownAt(s0, s, g, r, d, i);
    }
  }

  /** What the code of `s0` ends with is still covered. */
  lemma GrownWider(s0: State, s: State, r: State)
    requires Start(s) && Grown(s, r) && |s0.code| <= |s.code|
    ensures Wider(s0, s, r)
  {
    var n := |s0.code|;
    if 0 < n {
      assert GrownAt(s, r, n - 1);
      if n - 1 in s.jpc { assert Pending(s.code, n - 1); }
    }
  }

  lemma AboveTwice(s0: State, s: State, r: State)
    requires Start(s) && Grown(s0, s) && Grown(s, r) && Above(s0, s) && Above(s, r) && s0.freereg <= s.freereg
    ensures Above(s0, r)
  {
    var n := |s0.code|;
    if 0 < n {
      assert GrownAt(s0, s, n - 1) && GrownAt(s, r, n - 1);
      if n - 1 in s.jpc { assert Pending(s.code, n - 1); }
    }
  }

  // Runs

  /** Where the run of the first part ends, the second begins. */
  function EntryOf(s: State, out: Out): nat { if out.Fall? then |s.code| else out.j }

  /** Running on from where the first part ends. */
  lemma RunsOn(m: Env, s0: State, s: State, g: ExpDesc, r: State, d: ExpDesc, p: nat, q: Regs)
    requires Follows(s0, s, g, r, d) && (p == |s0.code| || p in s0.jpc)
    ensures p <= |s.code| <= |r.code|
    ensures var out := RunAt(m, s.code, p, q);
            EntryOf(s, out) <= |r.code| && RunAt(m, r.code, p, q) == RunAt(m, r.code, EntryOf(s, out), out.r)
  {
    hide Follows, WellFormed, Start, Grown;
    FollowsParts(s0, s, g, r, d);
    EntryOk(s0, s, p);
    GrownContinues(s, r);
    RunAtContinues(m, s.code, r.code, p, q);
    LastStored(s, r, RunAt(m, s.code, p, q).r);
  }

  /** Nothing is stored on the way to the end of the first part. */
  lemma LastStored(s: State, r: State, q: Regs)
    requires Start(s) && Grown(s, r)
    ensures |s.code| <= |r.code| && Stored(r.code, |s.code|, q) == q
  {
    if |s.code| > 0 { assert GrownAt(s, r, |s.code| - 1) && OkAt(s.code, |s.code| - 1); }
  }

  /** A tag does not depend on where control is counted to be. */
  lemma SameTag(s: State, out: Out)
    requires IsHere(s.jpc, out) && AllPending(s.code, s.jpc)
    ensures TagOf(s.code, out) == EntryTag(s, EntryOf(s, out), out.r)
  {
    if out.Exit? { assert Pending(s.code, out.j); }
  }

  lemma BothOut(m: Env, s0: State, s: State, g: ExpDesc, r: State, d: ExpDesc, o: Outcome, out: Out)
    requires Follows(s0, s, g, r, d) && OutOk(m, r, d, o, out)
    ensures OutOk(m, r, Both(d, g), o, out)
  {
  }

  /** What comes of a first part and a second. */
  ghost predicate Chained(m: Env, f: Meaning, g: Meaning, s0: State, s: State, x: ExpDesc, r: State, d: ExpDesc,
                          p: nat, q: Regs) {
    && p <= |s.code| && p <= |r.code|
    && var here, out, o := RunAt(m, s.code, p, q), RunAt(m, r.code, p, q), f(q, EntryTag(s0, p, q));
       && Keeps(s0.freereg, None, q, here.r) && OutOk(m, s, x, o, here)
       && if o.Stays? then Keeps(s.freereg, None, here.r, out.r) && OutOk(m, r, Both(d, x), g(here.r, o.tag), out)
          else out == here && OutOk(m, r, Both(d, x), o, out)
  }

  /** Where the first part goes on, the whole ends as the second does; where it leaves, the whole leaves. */
  lemma ChainAt(m: Env, f: Meaning, g: Meaning, s0: State, s: State, x: ExpDesc, r: State, d: ExpDesc, p: nat, q: Regs)
    requires Follows(s0, s, x, r, d) && Sem(m, f, s0, s, x, None) && Sem(m, g, s, r, d, None) && Enters(s0, r, p, q)
    requires p <= |s.code| && EntryRegs(s, r, RunAt(m, s.code, p, q).r)
    ensures Chained(m, f, g, s0, s, x, r, d, p, q)
  {
    hide *;
    FollowsParts(s0, s, x, r, d);
    GrownWider(s0, s, r);
    EntersBack(s0, s, r, p, q);
    EntersAt(s0, s, p, q);
    SemParts(m, f, s0, s, x, None, p, q);
    RunsOn(m, s0, s, x, r, d, p, q);
    var here, o := RunAt(m, s.code, p, q), f(q, EntryTag(s0, p, q));
    if o.Stays? {
      StaysHere(m, s, x, o, here);
      HeldParts(s, x);
      SameTag(s, here);
      SecondEnters(s, r, here);
      SemParts(m, g, s, r, d, None, EntryOf(s, here), here.r);
      BothOut(m, s0, s, x, r, d, g(here.r, o.tag), RunAt(m, r.code, p, q));
    } else {
      LeavesBoth(m, s0, s, x, r, d, o, here);
    }
    ChainedFrom(m, f, g, s0, s, x, r, d, p, q);
  }

  lemma StaysHere(m: Env, s: State, x: ExpDesc, o: Outcome, out: Out)
    requires OutOk(m, s, x, o, out) && o.Stays? && !x.k.VJMP?
    ensures IsHere(s.jpc, out) && o.tag == TagOf(s.code, out)
  {
  }

  lemma SecondEnters(s: State, r: State, out: Out)
    requires IsHere(s.jpc, out) && EntryRegs(s, r, out.r)
    ensures Enters(s, r, EntryOf(s, out), out.r)
  {
  }

  lemma ChainedFrom(m: Env, f: Meaning, g: Meaning, s0: State, s: State, x: ExpDesc, r: State, d: ExpDesc,
                    p: nat, q: Regs)
    requires p <= |s.code| && p <= |r.code|
    requires var here, out, o := RunAt(m, s.code, p, q), RunAt(m, r.code, p, q), f(q, EntryTag(s0, p, q));
             && Keeps(s0.freereg, None, q, here.r) && OutOk(m, s, x, o, here)
             && if o.Stays? then Keeps(s.freereg, None, here.r, out.r) && OutOk(m, r, Both(d, x), g(here.r, o.tag), out)
                else out == here && OutOk(m, r, Both(d, x), o, out)
    ensures Chained(m, f, g, s0, s, x, r, d, p, q)
  {
  }

  lemma LeavesBoth(m: Env, s0: State, s: State, x: ExpDesc, r: State, d: ExpDesc, o: Outcome, out: Out)
    requires Follows(s0, s, x, r, d) && OutOk(m, s, x, o, out) && o.Leaves?
    ensures out.j <= |r.code| && EntryOf(s, out) == out.j && RunAt(m, r.code, out.j, out.r) == out
            && OutOk(m, r, Both(d, x), o, out)
  {
    hide Follows, WellFormed, Start, Grown;
    FollowsParts(s0, s, x, r, d);
    ExitsApart(s0, s, x, r, d);
    GrownPending(s, r, out.j, out.r);
    assert Run(m, r.code, out.j, out.r) == Exit(out.j, out.r);
  }
}
