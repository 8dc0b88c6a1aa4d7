/** `exp2reg`: the jumps out of an expression are patched so that its value ends up in one register. */
module CodeGenExp {
  import opened Common
  import opened JumpCode
  import opened CodeGen
  import opened CodeGenRun
  import opened CodeGenSem
  import opened CodeGenCond

  // The code after patching

  /** The jumps on which the expression is true; a comparison adds its own. */
  function Trues(d: ExpDesc): seq<nat> { d.t + JumpOf(d.k) }

  /** What `exp2reg` appends if some jump carries no value; `vj` when control falls through on a false comparison. */
  function Tail(vj: bool, need: bool, reg: nat): seq<Ins> {
    if !need then [] else (if vj then [] else [Jmp(NO_JUMP)]) + [LoadBool(reg, false, true), LoadBool(reg, true, false)]
  }

  function Falses(c: seq<Ins>, vj: bool): nat { |c| + if vj then 0 else 1 }

  function Fixed(c: seq<Ins>, t: seq<nat>, f: seq<nat>, reg: nat, pf: nat): seq<Ins> {
    PatchList(PatchList(c, f, |c|, Some(reg), pf), t, |c|, Some(reg), pf + 1)
  }

  function FixedAt(c: seq<Ins>, t: seq<nat>, f: seq<nat>, reg: nat, pf: nat, i: nat): Ins
    requires i < |c|
  {
    if i in f then Jmp(if Carries(c, i) then |c| else pf)
    else if i in t then Jmp(if Carries(c, i) then |c| else pf + 1)
    else if (i + 1 in t || i + 1 in f) && Carries(c, i + 1) then Control(c[i], Some(reg))
    else c[i]
  }

  ghost predicate Waiting(c: seq<Ins>, t: seq<nat>, f: seq<nat>) {
    Distinct(t) && Distinct(f) && (forall j :: j in t ==> j !in f) && AllPending(c, t) && AllPending(c, f)
  }

  lemma FixedIs(c: seq<Ins>, t: seq<nat>, f: seq<nat>, reg: nat, pf: nat)
    requires Waiting(c, t, f)
    ensures |Fixed(c, t, f, reg, pf)| == |c|
    ensures forall i :: 0 <= i < |c| ==> Fixed(c, t, f, reg, pf)[i] == FixedAt(c, t, f, reg, pf, i)
  {
    var c1 := PatchList(c, f, |c|, Some(reg), pf);
    PatchListAt(c, f, |c|, Some(reg), pf);
    forall j | j in t
      ensures Pending(c1, j) && (Carries(c1, j) <==> Carries(c, j))
    {
      FixedKeeps(c, t, f, reg, pf, j);
    }
    PatchListAt(c1, t, |c|, Some(reg), pf + 1);
    forall i | 0 <= i < |c|
      ensures Fixed(c, t, f, reg, pf)[i] == FixedAt(c, t, f, reg, pf, i)
    {
      assert c1[i] == PatchedAt(c, f, |c|, Some(reg), pf, i);
      assert Fixed(c, t, f, reg, pf)[i] == PatchedAt(c1, t, |c|, Some(reg), pf + 1, i);
      if i in t { assert Pending(c, i); }
      if i in f { assert Pending(c, i); }
      if i + 1 in t { assert Pending(c, i + 1) && (Carries(c1, i + 1) <==> Carries(c, i + 1)); }
      if i + 1 in f { assert Pending(c, i + 1); }
    }
  }

  lemma FixedKeeps(c: seq<Ins>, t: seq<nat>, f: seq<nat>, reg: nat, pf: nat, j: nat)
    requires Waiting(c, t, f) && j in t
    requires forall i :: 0 <= i < |c| ==>
                           PatchList(c, f, |c|, Some(reg), pf)[i] == PatchedAt(c, f, |c|, Some(reg), pf, i)
    ensures var c1 := PatchList(c, f, |c|, Some(reg), pf); Pending(c1, j) && (Carries(c1, j) <==> Carries(c, j))
  {
    var c1 := PatchList(c, f, |c|, Some(reg), pf);
    assert Pending(c, j) && c1[j] == PatchedAt(c, f, |c|, Some(reg), pf, j);
    if j > 0 {
      assert c1[j - 1] == PatchedAt(c, f, |c|, Some(reg), pf, j - 1);
      if j - 1 in f { assert Pending(c, j - 1); }
    }
  }

  /** The code whose value lands in `reg`. */
  function Landed(c: seq<Ins>, t: seq<nat>, f: seq<nat>, vj: bool, need: bool, reg: nat): seq<Ins> {
    Fixed(c + Tail(vj, need, reg), t, f, reg, Falses(c, vj))
  }

  /** Whether each jump that carries no value has something to load it. */
  ghost predicate Provided(c: seq<Ins>, t: seq<nat>, f: seq<nat>, need: bool) {
    !need ==> forall j :: j in t || j in f ==> Carries(c, j)
  }

  function LandedAt(c: seq<Ins>, t: seq<nat>, f: seq<nat>, end: nat, pf: nat, reg: nat, i: nat): Ins
    requires i < |c|
  {
    if i in f then Jmp(if Carries(c, i) then end else pf)
    else if i in t then Jmp(if Carries(c, i) then end else pf + 1)
    else if (i + 1 in t || i + 1 in f) && Carries(c, i + 1) then Control(c[i], Some(reg))
    else c[i]
  }

  lemma LandedIs(c: seq<Ins>, t: seq<nat>, f: seq<nat>, vj: bool, need: bool, reg: nat)
    requires Waiting(c, t, f)
    ensures |Landed(c, t, f, vj, need, reg)| == |c| + |Tail(vj, need, reg)|
    ensures forall i :: 0 <= i < |c| ==>
              Landed(c, t, f, vj, need, reg)[i] == LandedAt(c, t, f, |c| + |Tail(vj, need, reg)|, Falses(c, vj), reg, i)
    ensures forall i :: |c| <= i < |c| + |Tail(vj, need, reg)| ==>
                          Landed(c, t, f, vj, need, reg)[i] == Tail(vj, need, reg)[i - |c|]
  {
    var e, pf := c + Tail(vj, need, reg), Falses(c, vj);
    assert forall j :: j in t || j in f ==> Pending(c, j);
    assert forall i :: 0 <= i < |c| ==> e[i] == c[i];
    assert Waiting(e, t, f);
    FixedIs(e, t, f, reg, pf);
    forall i | 0 <= i < |e|
      ensures Landed(c, t, f, vj, need, reg)[i] == FixedAt(e, t, f, reg, pf, i)
    {
    }
    assert forall j :: j in t || j in f ==> j < |c|;
  }

  lemma LandedContinues(c: seq<Ins>, t: seq<nat>, f: seq<nat>, vj: bool, need: bool, reg: nat)
    requires WellFormed(c) && Waiting(c, t, f)
    ensures Continues(c, Landed(c, t, f, vj, need, reg))
  {
    hide Landed;
    var d := Landed(c, t, f, vj, need, reg);
    LandedIs(c, t, f, vj, need, reg);
    forall i | 0 <= i < |c|
      ensures SameAt(c, d, i)
    {
      assert OkAt(c, i);
      if i in t || i in f { assert Pending(c, i); }
      if i + 1 in t || i + 1 in f { assert Pending(c, i + 1); }
    }
  }

  lemma LandedWellFormed(c: seq<Ins>, t: seq<nat>, f: seq<nat>, vj: bool, need: bool, reg: nat)
    requires WellFormed(c) && Waiting(c, t, f) && Provided(c, t, f, need)
    ensures WellFormed(Landed(c, t, f, vj, need, reg))
  {
    hide Landed, WellFormed;
    var d := Landed(c, t, f, vj, need, reg);
    LandedIs(c, t, f, vj, need, reg);
    forall i | 0 <= i < |d|
      ensures OkAt(d, i)
    {
      LandedOkAt(c, t, f, vj, need, reg, i);
    }
    WellFormedFrom(d);
  }

  lemma WellFormedFrom(c: seq<Ins>)
    requires forall i :: 0 <= i < |c| ==> OkAt(c, i)
    ensures WellFormed(c)
  {
  }

  lemma WellFormedAt(c: seq<Ins>, i: nat)
    requires WellFormed(c) && i < |c|
    ensures OkAt(c, i) && !IsTest(c[|c| - 1])
  {
    assert OkAt(c, i) && OkAt(c, |c| - 1);
  }

  lemma LandedOkAt(c: seq<Ins>, t: seq<nat>, f: seq<nat>, vj: bool, need: bool, reg: nat, i: nat)
    requires WellFormed(c) && Waiting(c, t, f) && Provided(c, t, f, need) && i < |Landed(c, t, f, vj, need, reg)|
    ensures OkAt(Landed(c, t, f, vj, need, reg), i)
  {
    hide Landed, WellFormed;
    var d, n := Landed(c, t, f, vj, need, reg), |c|;
    LandedIs(c, t, f, vj, need, reg);
    if i < n {
      WellFormedAt(c, i);
      assert IsTest(d[i]) <==> IsTest(c[i]);
      LandedTests(c, t, f, vj, need, reg);
      if i in t || i in f {
        assert Pending(c, i);
      } else {
        if i + 1 in t || i + 1 in f { assert Pending(c, i + 1); }
      }
    }
  }

  /** Patching turns no other instruction into a test. */
  lemma LandedTests(c: seq<Ins>, t: seq<nat>, f: seq<nat>, vj: bool, need: bool, reg: nat)
    requires WellFormed(c) && Waiting(c, t, f)
    ensures var d := Landed(c, t, f, vj, need, reg);
            && |d| >= |c| && (|c| > 0 ==> !IsTest(c[|c| - 1]))
            && (forall i :: 0 <= i < |c| ==> (IsTest(d[i]) <==> IsTest(c[i])) && (d[i].Jmp? <==> c[i].Jmp?)
                                             && (d[i].LoadBool? ==> d[i] == c[i]) && (c[i].LoadBool? ==> d[i] == c[i]))
  {
    hide Landed, WellFormed;
    LandedIs(c, t, f, vj, need, reg);
    if |c| > 0 { WellFormedAt(c, 0); }
    var d := Landed(c, t, f, vj, need, reg);
    forall i | 0 <= i < |c|
      ensures (IsTest(d[i]) <==> IsTest(c[i])) && (d[i].Jmp? <==> c[i].Jmp?) && (d[i].LoadBool? ==> d[i] == c[i])
              && (c[i].LoadBool? ==> d[i] == c[i])
    {
      if i in t || i in f { assert Pending(c, i); }
    }
  }

  // Runs of the patched code

  lemma RunJump(m: Env, c: seq<Ins>, j: nat, r: Regs)
    requires j < |c| && c[j].Jmp? && c[j].dest > j
    ensures Run(m, c, j, r) == Run(m, c, c[j].dest, r)
  {
  }

  /** A jump without a value still has a control that stores none. */
  lemma NotCarried(c: seq<Ins>, t: seq<nat>, f: seq<nat>, vj: bool, need: bool, reg: nat, j: nat, r: Regs)
    requires WellFormed(c) && Waiting(c, t, f) && Pending(c, j) && !Carries(c, j)
    ensures j < |Landed(c, t, f, vj, need, reg)| && Stored(Landed(c, t, f, vj, need, reg), j, r) == r
  {
    hide Landed;
    var d := Landed(c, t, f, vj, need, reg);
    LandedIs(c, t, f, vj, need, reg);
    if j > 0 {
      assert d[j - 1] == LandedAt(c, t, f, |d|, Falses(c, vj), reg, j - 1);
    }
  }

  /** The instructions at the end load `false`, or `true`. */
  lemma LandedTail(m: Env, c: seq<Ins>, t: seq<nat>, f: seq<nat>, vj: bool, need: bool, reg: nat, r: Regs)
    requires Waiting(c, t, f)
    ensures var d, pf := Landed(c, t, f, vj, need, reg), Falses(c, vj);
            && Run(m, d, |d|, r) == Fall(r)
            && (need ==> Run(m, d, pf, r) == Fall(r[reg := Bool(false)])
                         && Run(m, d, pf + 1, r) == Fall(r[reg := Bool(true)]))
            && (need && !vj ==> Run(m, d, |c|, r) == Exit(|c|, r))
  {
    hide Landed;
    var d, pf, n := Landed(c, t, f, vj, need, reg), Falses(c, vj), |c|;
    LandedIs(c, t, f, vj, need, reg);
    if need {
      assert d[pf] == Tail(vj, need, reg)[pf - n] && d[pf + 1] == Tail(vj, need, reg)[pf + 1 - n];
      if !vj { assert d[n] == Tail(vj, need, reg)[0]; }
      assert Run(m, d, pf + 2, r[reg := Bool(false)]) == Fall(r[reg := Bool(false)]);
      assert Run(m, d, pf + 2, r[reg := Bool(true)]) == Fall(r[reg := Bool(true)]);
    }
  }

  /** The jump leads to `reg` with the value `v`, and changes no other register. */
  ghost predicate Arrives(m: Env, d: seq<Ins>, j: nat, reg: nat, r: Regs, v: V) {
    j <= |d| && (var out := RunAt(m, d, j, r);
                 out.Fall? && Get(out.r, reg) == v && forall a :: a != reg ==> Get(out.r, a) == Get(r, a))
  }

  /** A jump that carries its value takes it to the end. */
  lemma CarriedExit(m: Env, c: seq<Ins>, t: seq<nat>, f: seq<nat>, vj: bool, need: bool, reg: nat, j: nat, r: Regs)
    requires WellFormed(c) && Waiting(c, t, f) && Pending(c, j) && (j in t || j in f) && Carries(c, j)
    ensures Arrives(m, Landed(c, t, f, vj, need, reg), j, reg, r, Get(r, c[j - 1].b))
  {
    hide Landed, WellFormed, Run;
    var d := Landed(c, t, f, vj, need, reg);
    LandedIs(c, t, f, vj, need, reg);
    WellFormedAt(c, j - 1);
    LandedTail(m, c, t, f, vj, need, reg, Stored(d, j, r));
    assert d[j] == LandedAt(c, t, f, |d|, Falses(c, vj), reg, j);
    assert d[j - 1] == LandedAt(c, t, f, |d|, Falses(c, vj), reg, j - 1);
    RunJump(m, d, j, Stored(d, j, r));
  }

  /** A jump without a value goes where it is loaded. */
  lemma BareExit(m: Env, c: seq<Ins>, t: seq<nat>, f: seq<nat>, vj: bool, need: bool, reg: nat, j: nat, r: Regs)
    requires WellFormed(c) && Waiting(c, t, f) && Pending(c, j) && (j in t || j in f) && !Carries(c, j) && need
    ensures Arrives(m, Landed(c, t, f, vj, need, reg), j, reg, r, Bool(j in t))
  {
    hide Landed, WellFormed, Run, Tail;
    var d := Landed(c, t, f, vj, need, reg);
    LandedIs(c, t, f, vj, need, reg);
    LandedTail(m, c, t, f, vj, need, reg, r);
    NotCarried(c, t, f, vj, need, reg, j, r);
    assert d[j] == LandedAt(c, t, f, |d|, Falses(c, vj), reg, j);
    RunJump(m, d, j, r);
  }

  // `exp2reg`

  /** The jumps that need their value loaded. */
  predicate Needed(s: State, d: ExpDesc) {
    NeedValue(s.code, Trues(d)) || NeedValue(s.code, d.f)
  }

  function LandedState(s: State, d: ExpDesc, reg: nat): State {
    var c := Landed(s.code, Trues(d), d.f, d.k.VJMP?, Needed(s, d), reg);
    s.(code := c, jpc := if Needed(s, d) && !d.k.VJMP? then JumpsOf(s) else s.jpc, lasttarget := |c|)
  }

  /** `exp2reg` on a value that is somewhere: load it, and patch the jumps. */
  lemma Exp2RegIs(s: State, d: ExpDesc, reg: nat)
    requires !d.k.VLOCAL? && !d.k.VUPVAL? && (d.k.VJMP? ==> s.jpc == [])
    ensures var (s1, d1) := Discharge2Reg(s, d, reg);
            && s1 == LoadTo(s, d.k, reg) && d1 == (if d.k.VJMP? then d else d.(k := VNONRELOC(reg)))
            && Exp2Reg(s, d, reg) == (if Trues(d1) == d1.f then s1
                                      else LandedState(s1, d1, reg), ExpDesc(VNONRELOC(reg), [], []))
  {
    hide PatchList, NeedValue;
    var (s1, d1) := Discharge2Reg(s, d, reg);
    assert Trues(d1) == if d1.k.VJMP? then d1.t + [d1.k.jump] else d1.t;
    LoadBoolsIs(s1, d1.k, reg);
    assert s1.code + Tail(d1.k.VJMP?, false, reg) == s1.code;
  }

  lemma LoadBoolsIs(s: State, k: Kind, reg: nat)
    requires k.VJMP? ==> s.jpc == []
    ensures var r := LoadBools(s, k, reg);
            && r.code == s.code + Tail(k.VJMP?, true, reg)
            && GetLabel(r) == s.(code := r.code, jpc := if k.VJMP? then s.jpc else JumpsOf(s), lasttarget := |r.code|)
  {
    var j := if k.VJMP? then s else Jump(s);
    var pf := Emit(GetLabel(j), LoadBool(reg, false, true));
    assert pf.code == j.code + [LoadBool(reg, false, true)] && pf.jpc == [];
    var pt := Emit(GetLabel(pf), LoadBool(reg, true, false));
    assert pt.code == pf.code + [LoadBool(reg, true, false)];
    assert j.code + [LoadBool(reg, false, true)] + [LoadBool(reg, true, false)] == s.code + Tail(k.VJMP?, true, reg);
  }

  /** What `exp2reg` starts from: the value is in `reg`, or is a comparison. */
  ghost predicate Loaded(s0: State, s: State, d: ExpDesc, reg: nat) {
    && Base(s0, s, d)
    && if d.k.VJMP? then KindOk(s, d.k) && KindNew(s0, d.k) else d.k == VNONRELOC(reg)
  }

  lemma LoadedBase(s0: State, s: State, d: ExpDesc, reg: nat)
    requires Loaded(s0, s, d, reg)
    ensures Base(s0, s, d) && (d.k.VJMP? || d.k == VNONRELOC(reg))
    ensures d.k.VJMP? ==> s.jpc == [] && d.k.jump + 1 == |s.code| && d.k.jump > |s0.code| && !Carries(s.code, d.k.jump)
  {
  }

  lemma LoadedWaits(s0: State, s: State, d: ExpDesc, reg: nat)
    requires Loaded(s0, s, d, reg)
    ensures Waiting(s.code, Trues(d), d.f) && Provided(s.code, Trues(d), d.f, Needed(s, d)) && WellFormed(s.code)
    ensures forall j :: j in s.jpc ==> j !in Trues(d) && j !in d.f && Pending(s.code, j)
    ensures Distinct(s.jpc)
  {
    hide WellFormed, Loaded, Base, Carries;
    LoadedBase(s0, s, d, reg);
    BaseParts(s0, s, d);
    HeldParts(s, d);
    HeldPending(s, d);
    TruesApart(s, d);
  }

  lemma TruesApart(s: State, d: ExpDesc)
    requires Lists(s, d)
    ensures Distinct(Trues(d)) && AllPending(s.code, Trues(d))
            && (forall x :: x in Trues(d) ==> x !in d.f && x !in s.jpc)
  {
    hide Distinct, Pending;
    var t, f, w := d.t, d.f, JumpOf(d.k);
    HeldParts(s, d);
    DistinctParts(t + f, w);
    assert forall x :: x in t || x in f ==> x in t + f;
    DistinctJoin(t, w);
    assert Held(s, d) == s.jpc + (t + f + w);
    DistinctParts(s.jpc, t + f + w);
    assert forall x :: x in Trues(d) ==> x in t + f + w && x in Held(s, d);
  }

  /** A LOADNIL at the end of `s0` is not affected, and nothing can be merged. */
  ghost predicate LandedEnd(s0: State, s: State, r: State) {
    Wider(s0, s, r) && Sealed(r) && Labelled(r) && (Above(s0, s) ==> Above(s0, r))
  }

  lemma LandedBase(s0: State, s: State, d: ExpDesc, reg: nat)
    requires Loaded(s0, s, d, reg)
    ensures Base(s0, LandedState(s, d, reg), ExpDesc(VNONRELOC(reg), [], []))
            && LandedEnd(s0, s, LandedState(s, d, reg))
  {
    hide Landed, WellFormed, Start, GrownAt, Tail, Loaded;
    var r, g := LandedState(s, d, reg), ExpDesc(VNONRELOC(reg), [], []);
    LoadedBase(s0, s, d, reg);
    BaseParts(s0, s, d);
    LoadedWaits(s0, s, d, reg);
    LandedIs(s.code, Trues(d), d.f, d.k.VJMP?, Needed(s, d), reg);
    LandedWellFormed(s.code, Trues(d), d.f, d.k.VJMP?, Needed(s, d), reg);
    LandedPending(s0, s, d, reg);
    LandedNil(s0, s, d, reg);
    assert Held(r, g) == r.jpc;
    if Needed(s, d) && !d.k.VJMP? {
      DistinctJoin([|s.code|], s.jpc);
    }
    forall i | 0 <= i < |s0.code|
      ensures GrownAt(s0, r, i)
    {
      LandedGrownAt(s0, s, d, reg, i);
    }
  }

  lemma LandedNil(s0: State, s: State, d: ExpDesc, reg: nat)
    requires Loaded(s0, s, d, reg)
    ensures LandedEnd(s0, s, LandedState(s, d, reg))
  {
    hide Landed, WellFormed, Start, Loaded;
    var r, n := LandedState(s, d, reg), |s0.code|;
    LoadedBase(s0, s, d, reg);
    BaseParts(s0, s, d);
    GrownLength(s0, s);
    LoadedWaits(s0, s, d, reg);
    LandedIs(s.code, Trues(d), d.f, d.k.VJMP?, Needed(s, d), reg);
    if n > 0 {
      assert r.code[n - 1] == LandedAt(s.code, Trues(d), d.f, |r.code|, Falses(s.code, d.k.VJMP?), reg, n - 1);
      assert forall j :: j in Trues(d) || j in d.f ==> Pending(s.code, j);
    }
  }

  lemma LandedPending(s0: State, s: State, d: ExpDesc, reg: nat)
    requires Loaded(s0, s, d, reg)
    ensures AllPending(LandedState(s, d, reg).code, LandedState(s, d, reg).jpc)
  {
    hide Landed, WellFormed;
    var r := LandedState(s, d, reg);
    LoadedWaits(s0, s, d, reg);
    LandedIs(s.code, Trues(d), d.f, d.k.VJMP?, Needed(s, d), reg);
    forall j | j in r.jpc
      ensures Pending(r.code, j)
    {
      if j in s.jpc {
        assert r.code[j] == LandedAt(s.code, Trues(d), d.f, |r.code|, Falses(s.code, d.k.VJMP?), reg, j);
      } else {
        assert r.code[j] == Tail(d.k.VJMP?, true, reg)[j - |s.code|];
      }
    }
  }

  lemma LandedGrownAt(s0: State, s: State, d: ExpDesc, reg: nat, i: nat)
    requires Loaded(s0, s, d, reg) && i < |s0.code|
    ensures |s0.code| <= |LandedState(s, d, reg).code| && GrownAt(s0, LandedState(s, d, reg), i)
  {
    hide Landed, WellFormed, Loaded;
    var r := LandedState(s, d, reg);
    LoadedBase(s0, s, d, reg);
    BaseParts(s0, s, d);
    LoadedWaits(s0, s, d, reg);
    LandedIs(s.code, Trues(d), d.f, d.k.VJMP?, Needed(s, d), reg);
    WellFormedAt(s0.code, i);
    assert r.code[i] == LandedAt(s.code, Trues(d), d.f, |r.code|, Falses(s.code, d.k.VJMP?), reg, i)
           && GrownAt(s0, s, i);
    assert forall j :: (j in Trues(d) || j in d.f) && j < |s0.code| ==> j in d.t + d.f;
    assert forall j :: j in Trues(d) || j in d.f ==> Pending(s.code, j);
  }

  /**
    The value that ends up in the register: the one that is here, or is carried; or what leaving through the list says.
   */
  function Landing(o: Outcome): Outcome {
    match o
    case Stays(_, _) => o
    case Leaves(cond, tag) => Stays(if tag.Some? then tag.value else Bool(cond), None)
  }

  function Lands(f: Meaning): Meaning { (r, t) => Landing(f(r, t)) }

  lemma LandsIs(f: Meaning, r: Regs, t: Option<V>)
    ensures Lands(f)(r, t) == Landing(f(r, t))
  {
  }

  /** The outcome of a run of the patched code: here, with the value in `reg`. */
  ghost predicate LandsHere(s: State, reg: nat, n: nat, y: Option<nat>, r: Regs, o: Outcome, out: Out) {
    o.Stays? && IsHere(s.jpc, out) && Get(out.r, reg) == o.v && o.tag == TagOf(s.code, out) && Keeps(n, y, r, out.r)
  }

  lemma LandedOut(m: Env, s0: State, s: State, d: ExpDesc, reg: nat, y: Option<nat>, r: Regs, out: Out, o: Outcome)
    requires Loaded(s0, s, d, reg) && OutOk(m, s, d, o, out) && Keeps(s0.freereg, y, r, out.r)
             && (reg >= s0.freereg || y == Some(reg))
    requires out.Exit? ==> Pending(s.code, out.j)
    ensures var q := LandedState(s, d, reg);
            && (out.Exit? ==> out.j <= |q.code|)
            && LandsHere(q, reg, s0.freereg, y, r, Landing(o),
                         if out.Fall? then Run(m, q.code, |s.code|, out.r) else RunAt(m, q.code, out.j, out.r))
  {
    hide Landed, WellFormed, Run, Tail, Loaded, Base, KindOk, KindValue, TagAt;
    var q := LandedState(s, d, reg);
    LoadedWaits(s0, s, d, reg);
    LoadedBase(s0, s, d, reg);
    LandedIs(s.code, Trues(d), d.f, d.k.VJMP?, Needed(s, d), reg);
    if IsHere(s.jpc, out) {
      LandedFall(m, s0, s, d, reg, out);
      HereValue(m, s, d, o, out);
    } else {
      LeavingValue(m, s, d, o, out);
      if Carries(s.code, out.j) {
        CarriedExit(m, s.code, Trues(d), d.f, d.k.VJMP?, Needed(s, d), reg, out.j, out.r);
      } else {
        BareExit(m, s.code, Trues(d), d.f, d.k.VJMP?, Needed(s, d), reg, out.j, out.r);
      }
      NoTag(m, q, out.j, out.r);
    }
  }

  lemma HereValue(m: Env, s: State, d: ExpDesc, o: Outcome, out: Out)
    requires OutOk(m, s, d, o, out) && IsHere(s.jpc, out) && Lists(s, d) && (d.k.VJMP? ==> s.jpc == [])
    ensures o.Stays? && o.v == KindValue(m, s.code, d.k, out.r) && o.tag == TagOf(s.code, out)
  {
    HeldParts(s, d);
  }

  lemma LeavingValue(m: Env, s: State, d: ExpDesc, o: Outcome, out: Out)
    requires OutOk(m, s, d, o, out) && !IsHere(s.jpc, out) && Waiting(s.code, Trues(d), d.f) && Pending(s.code, out.j)
    requires d.k.VJMP? ==> !Carries(s.code, d.k.jump)
    ensures out.j in Trues(d) || out.j in d.f
    ensures Landing(o) == Stays(if Carries(s.code, out.j) then Get(out.r, s.code[out.j - 1].b)
                                else Bool(out.j in Trues(d)), None)
  {
    if d.k.VJMP? { assert d.k.jump in JumpOf(d.k); }
  }

  lemma NoTag(m: Env, s: State, j: nat, r: Regs)
    requires j <= |s.code| && RunAt(m, s.code, j, r).Fall?
    ensures TagOf(s.code, RunAt(m, s.code, j, r)) == None
  {
  }

  /** Where control is here before patching. */
  lemma LandedFall(m: Env, s0: State, s: State, d: ExpDesc, reg: nat, out: Out)
    requires Loaded(s0, s, d, reg) && IsHere(s.jpc, out)
    ensures var q := LandedState(s, d, reg);
            && (out.Exit? ==> out.j <= |q.code|)
            && (var o := if out.Fall? then Run(m, q.code, |s.code|, out.r) else RunAt(m, q.code, out.j, out.r);
                && IsHere(q.jpc, o) && Get(o.r, reg) == KindValue(m, s.code, d.k, out.r)
                   && TagOf(q.code, o) == TagOf(s.code, out)
                && forall a :: a != reg ==> Get(o.r, a) == Get(out.r, a))
  {
    hide Landed, WellFormed, Run, Tail, Loaded, Base, KindOk;
    var q := LandedState(s, d, reg);
    var t, vj, need := Trues(d), d.k.VJMP?, Needed(s, d);
    LoadedWaits(s0, s, d, reg);
    LoadedBase(s0, s, d, reg);
    LandedIs(s.code, t, d.f, vj, need, reg);
    LandedTail(m, s.code, t, d.f, vj, need, reg, out.r);
    if out.Fall? {
      LandedNeed(s, d);
      TailLength(vj, need, reg);
      LandedLast(s.code, t, d.f, vj, need, reg);
    } else {
      assert q.code[out.j] == LandedAt(s.code, t, d.f, |q.code|, Falses(s.code, vj), reg, out.j);
      HereStored(s, d, q.code, reg, out.j, out.r);
      RunPending(m, q.code, out.j, out.r);
    }
  }

  lemma LandedLast(c: seq<Ins>, t: seq<nat>, f: seq<nat>, vj: bool, need: bool, reg: nat)
    requires WellFormed(c) && Waiting(c, t, f)
    ensures !Carries(Landed(c, t, f, vj, need, reg), |c|)
  {
    hide Landed, WellFormed;
    LandedTests(c, t, f, vj, need, reg);
  }

  lemma TailLength(vj: bool, need: bool, reg: nat)
    ensures !need ==> Tail(vj, need, reg) == []
  {
  }

  /** The jump of a comparison carries no value. */
  lemma LandedNeed(s: State, d: ExpDesc)
    requires d.k.VJMP? ==> !Carries(s.code, d.k.jump)
    ensures d.k.VJMP? ==> Needed(s, d)
  {
    if d.k.VJMP? { assert d.k.jump in Trues(d); }
  }

  lemma RunPending(m: Env, c: seq<Ins>, j: nat, r: Regs)
    requires Pending(c, j)
    ensures Run(m, c, j, r) == Exit(j, r)
  {
  }

  lemma HereStored(s: State, d: ExpDesc, q: seq<Ins>, reg: nat, j: nat, r: Regs)
    requires WellFormed(s.code) && j in s.jpc && Pending(s.code, j) && j !in Trues(d) && j !in d.f && |q| >= |s.code|
    requires Waiting(s.code, Trues(d), d.f)
    requires forall i :: 0 <= i < |s.code| ==>
                           q[i] == LandedAt(s.code, Trues(d), d.f, |q|, Falses(s.code, d.k.VJMP?), reg, i)
    ensures Stored(q, j, r) == r && TagAt(q, j, r) == TagAt(s.code, j, r)
  {
    if j > 0 {
      assert q[j - 1] == LandedAt(s.code, Trues(d), d.f, |q|, Falses(s.code, d.k.VJMP?), reg, j - 1)
             && OkAt(s.code, j - 1);
      if j - 1 in Trues(d) || j - 1 in d.f { assert Pending(s.code, j - 1); }
    }
  }

  lemma OutPending(m: Env, s: State, d: ExpDesc, o: Outcome, out: Out)
    requires OutOk(m, s, d, o, out) && Lists(s, d)
    ensures out.Exit? ==> Pending(s.code, out.j)
  {
    hide KindValue, TagOf, TagAt;
    if out.Exit? { assert out.j in Held(s, d); }
  }

  lemma LandedSemAt(m: Env, f: Meaning, s0: State, s: State, d: ExpDesc, reg: nat, y: Option<nat>, p: nat, r: Regs)
    requires Loaded(s0, s, d, reg) && Sem(m, f, s0, s, d, y) && (reg >= s0.freereg || y == Some(reg))
    requires Enters(s0, LandedState(s, d, reg), p, r)
    ensures SemAt(m, Lands(f), s0, LandedState(s, d, reg), ExpDesc(VNONRELOC(reg), [], []), y, p, r)
  {
    hide *;
    var q, g := LandedState(s, d, reg), ExpDesc(VNONRELOC(reg), [], []);
    LoadedBase(s0, s, d, reg);
    BaseParts(s0, s, d);
    LandedBase(s0, s, d, reg);
    LandedEndParts(s0, s, q);
    EntersBack(s0, s, q, p, r);
    EntersAt(s0, s, p, r);
    EntryOk(s0, s, p);
    LoadedWaits(s0, s, d, reg);
    LandedContinues(s.code, Trues(d), d.f, d.k.VJMP?, Needed(s, d), reg);
    LandedCode(s, d, reg);
    RunAtContinues(m, s.code, q.code, p, r);
    SemParts(m, f, s0, s, d, y, p, r);
    OutPending(m, s, d, f(r, EntryTag(s0, p, r)), RunAt(m, s.code, p, r));
    LandedOut(m, s0, s, d, reg, y, r, RunAt(m, s.code, p, r), f(r, EntryTag(s0, p, r)));
    LandsIs(f, r, EntryTag(s0, p, r));
    LandedLength(s, d, reg);
    HereOut(m, q, reg, s0.freereg, y, r, Landing(f(r, EntryTag(s0, p, r))), RunAt(m, q.code, p, r));
    SemFrom(m, Lands(f), s0, q, g, y, p, r);
  }

  lemma LandedEndParts(s0: State, s: State, r: State)
    requires LandedEnd(s0, s, r)
    ensures Wider(s0, s, r) && Sealed(r) && Labelled(r) && (Above(s0, s) ==> Above(s0, r))
  {
  }

  lemma LandedCode(s: State, d: ExpDesc, reg: nat)
    ensures LandedState(s, d, reg).code == Landed(s.code, Trues(d), d.f, d.k.VJMP?, Needed(s, d), reg)
  {
  }

  lemma LandedLength(s: State, d: ExpDesc, reg: nat)
    requires Waiting(s.code, Trues(d), d.f)
    ensures |s.code| <= |LandedState(s, d, reg).code|
  {
    LandedIs(s.code, Trues(d), d.f, d.k.VJMP?, Needed(s, d), reg);
  }

  lemma HereOut(m: Env, s: State, reg: nat, n: nat, y: Option<nat>, r: Regs, o: Outcome, out: Out)
    requires LandsHere(s, reg, n, y, r, o, out)
    ensures Keeps(n, y, r, out.r) && OutOk(m, s, ExpDesc(VNONRELOC(reg), [], []), o, out)
  {
  }

  /** `exp2reg` puts the value of the expression in the register, and leaves through no jump. */
  lemma Exp2RegOk(m: Env, f: Meaning, s0: State, s: State, d: ExpDesc, y: Option<nat>, reg: nat)
    requires Base(s0, s, d) && KindOk(s, d.k) && KindNew(s0, d.k) && Settled(s0, s) && Labelled(s)
             && Sem(m, f, s0, s, d, None)
    requires !d.k.VLOCAL? && !d.k.VUPVAL? && (reg >= s0.freereg || y == Some(reg))
    requires Exp2Reg(s, d, reg).0.consts <= m.k
    ensures var (r, g) := Exp2Reg(s, d, reg);
            && g == ExpDesc(VNONRELOC(reg), [], []) && Base(s0, r, g)
               && Sem(m, Lands(LoadedOf(d.k, reg, f)), s0, r, g, y)
            && Labelled(r) && (Above(s0, s) && reg >= s0.freereg ==> Above(s0, r))
            && r.freereg == s.freereg && r.nactvar == s.nactvar && s.consts <= r.consts && Inherits(s0, r)
  {
    hide *;
    KindParts(s, d.k);
    Exp2RegIs(s, d, reg);
    var (s1, d1) := Discharge2Reg(s, d, reg);
    LandedFields(s1, d1, reg);
    LoadedOk(m, f, s0, s, d, y, reg);
    LoadedBase(s0, s1, d1, reg);
    if Trues(d1) != d1.f {
      LandedBase(s0, s1, d1, reg);
      LandedEndParts(s0, s1, LandedState(s1, d1, reg));
      SealedInherits(s0, LandedState(s1, d1, reg));
      LandedSem(m, LoadedOf(d.k, reg, f), s0, s1, d1, reg, y);
    } else {
      ListsEqual(s0, s1, d1, reg);
      LoadedInherits(s0, s, d, reg);
      StaysLanded(m, LoadedOf(d.k, reg, f), s0, s1, reg, y);
    }
  }

  lemma SealedInherits(s0: State, s: State)
    requires Sealed(s)
    ensures Inherits(s0, s)
  {
  }

  lemma LoadedInherits(s0: State, s: State, d: ExpDesc, reg: nat)
    requires Base(s0, s, d) && KindOk(s, d.k) && KindNew(s0, d.k) && Settled(s0, s) && !d.k.VLOCAL? && !d.k.VUPVAL?
    ensures Inherits(s0, Discharge2Reg(s, d, reg).0)
  {
    hide Base, Settled, Inherits, LoadTo, KindNew;
    LoadInherits(s0, s, d, reg);
    Exp2RegIs(s, d, reg);
  }

  lemma LandedFields(s: State, d: ExpDesc, reg: nat)
    ensures var r := LandedState(s, d, reg); r.consts == s.consts && r.freereg == s.freereg && r.nactvar == s.nactvar
  {
  }

  lemma LandedSem(m: Env, f: Meaning, s0: State, s: State, d: ExpDesc, reg: nat, y: Option<nat>)
    requires Loaded(s0, s, d, reg) && Sem(m, f, s0, s, d, y) && (reg >= s0.freereg || y == Some(reg))
    ensures Sem(m, Lands(f), s0, LandedState(s, d, reg), ExpDesc(VNONRELOC(reg), [], []), y)
  {
    hide LandedState, SemAt, Loaded, Enters, Lands;
    forall p: nat, r | Enters(s0, LandedState(s, d, reg), p, r)
      ensures SemAt(m, Lands(f), s0, LandedState(s, d, reg), ExpDesc(VNONRELOC(reg), [], []), y, p, r)
    {
      LandedSemAt(m, f, s0, s, d, reg, y, p, r);
    }
  }

  /** Without jumps there is nothing to land. */
  lemma StaysLanded(m: Env, f: Meaning, s0: State, s: State, reg: nat, y: Option<nat>)
    requires Sem(m, f, s0, s, ExpDesc(VNONRELOC(reg), [], []), y)
    ensures Sem(m, Lands(f), s0, s, ExpDesc(VNONRELOC(reg), [], []), y)
  {
    hide Run, Keeps, KindValue;
    forall p: nat, r | Enters(s0, s, p, r)
      ensures SemAt(m, Lands(f), s0, s, ExpDesc(VNONRELOC(reg), [], []), y, p, r)
    {
      assert SemAt(m, f, s0, s, ExpDesc(VNONRELOC(reg), [], []), y, p, r);
    }
  }

  /** Two disjoint lists are equal only if they are empty. */
  lemma ListsEqual(s0: State, s: State, d: ExpDesc, reg: nat)
    requires Loaded(s0, s, d, reg) && Trues(d) == d.f
    ensures d == ExpDesc(VNONRELOC(reg), [], [])
  {
    hide Base;
    LoadedWaits(s0, s, d, reg);
    NoElements(Trues(d));
  }

  lemma LoadedOk(m: Env, f: Meaning, s0: State, s: State, d: ExpDesc, y: Option<nat>, reg: nat)
    requires Base(s0, s, d) && KindOk(s, d.k) && KindNew(s0, d.k) && Settled(s0, s) && Labelled(s)
             && Sem(m, f, s0, s, d, None)
    requires !d.k.VLOCAL? && !d.k.VUPVAL? && (reg >= s0.freereg || y == Some(reg))
    requires LoadTo(s, d.k, reg).consts <= m.k
    ensures var (s1, d1) := Discharge2Reg(s, d, reg);
            && Loaded(s0, s1, d1, reg) && Sem(m, LoadedOf(d.k, reg, f), s0, s1, d1, y) && Labelled(s1)
            && (Above(s0, s) && reg >= s0.freereg ==> Above(s0, s1))
            && s1.freereg == s.freereg && s1.nactvar == s.nactvar && s.consts <= s1.consts && d1.t == d.t && d1.f == d.f
  {
    hide Base, Sem, KindOk, LoadTo, Settled, Labelled, Above, Dropped;
    Exp2RegIs(s, d, reg) by { KindParts(s, d.k); }
    LoadToSame(s, d.k, reg);
    if d.k.VJMP? {
      DropCompared(m, f, s0, s, d);
      SemWeaken(m, Dropped(f), s0, s, d, y);
    } else {
      LoadOk(m, f, s0, s, d, y, reg);
    }
  }

  lemma LoadToSame(s: State, k: Kind, reg: nat)
    ensures k.VJMP? ==> LoadTo(s, k, reg) == s
  {
  }

  /** A comparison drops what jumps to it carry. */
  lemma DropCompared(m: Env, f: Meaning, s0: State, s: State, d: ExpDesc)
    requires Sem(m, f, s0, s, d, None) && d.k.VJMP?
    ensures Sem(m, Dropped(f), s0, s, d, None)
  {
    hide Run, Keeps, KindValue;
    forall p: nat, r | Enters(s0, s, p, r)
      ensures SemAt(m, Dropped(f), s0, s, d, None, p, r)
    {
      assert SemAt(m, f, s0, s, d, None, p, r);
    }
  }

  lemma KindParts(s: State, k: Kind)
    requires KindOk(s, k)
    ensures k.VJMP? ==> s.jpc == []
  {
  }

  // `luaK_exp2nextreg`, `luaK_exp2anyreg` and `luaK_exp2RK`

  /** An operand: a value in a register or a small constant, and no jumps. */
  ghost predicate InPlace(s0: State, s: State, d: ExpDesc) {
    && Base(s0, s, d) && d.t == [] && d.f == [] && s.nactvar == s0.nactvar && Labelled(s) && Above(s0, s)
       && Inherits(s0, s)
    && (d.k.VNONRELOC? || (d.k.VK? && d.k.k <= MAXINDEXRK))
    && if d.k.VNONRELOC? && d.k.reg >= s.nactvar then d.k.reg == s0.freereg && s.freereg == s0.freereg + 1
       else s.freereg == s0.freereg
  }

  /** The value that the code leaves in a register, however control comes to its end. */
  function ValueOf(o: Outcome): V {
    match o
    case Stays(v, _) => v
    case Leaves(cond, tag) => if tag.Some? then tag.value else Bool(cond)
  }

  function Final(f: Meaning): Meaning { (r, t) => Stays(ValueOf(f(r, t)), None) }

  lemma FinalIs(f: Meaning, r: Regs, t: Option<V>)
    ensures Final(f)(r, t) == Stays(ValueOf(f(r, t)), None)
  {
  }

  lemma FinalSame(m: Env, f: Meaning, g: Meaning, s0: State, s: State, d: ExpDesc, y: Option<nat>)
    requires Sem(m, Lands(Dropped(g)), s0, s, d, y) && (g == f || g == Dropped(f))
    ensures Sem(m, Final(f), s0, s, d, y)
  {
    hide Run, Keeps, KindValue, OutOk;
    forall p: nat, r | Enters(s0, s, p, r)
      ensures SemAt(m, Final(f), s0, s, d, y, p, r)
    {
      assert SemAt(m, Lands(Dropped(g)), s0, s, d, y, p, r);
      assert Lands(Dropped(g))(r, EntryTag(s0, p, r)) == Final(f)(r, EntryTag(s0, p, r)) by {
        LandsIs(Dropped(g), r, EntryTag(s0, p, r));
        DroppedIs(g, r, EntryTag(s0, p, r));
        DroppedIs(f, r, EntryTag(s0, p, r));
        FinalIs(f, r, EntryTag(s0, p, r));
      }
    }
  }

  lemma NextKind(s: State, r: State, k: Kind)
    requires KindOk(s, k) && r.code == s.code && r.jpc == s.jpc && r.consts == s.consts && r.nactvar == s.nactvar
    requires k.VNONRELOC? ==> k.reg < s.nactvar
    ensures KindOk(r, k)
  {
  }

  lemma NextRegOk(m: Env, f: Meaning, s0: State, s: State, d: ExpDesc)
    requires Ready(s0, s, d) && Sem(m, f, s0, s, d, None) && Exp2NextReg(s, d).0.consts <= m.k
    ensures var (r, g) := Exp2NextReg(s, d);
            && g == ExpDesc(VNONRELOC(s0.freereg), [], []) && InPlace(s0, r, g) && Sem(m, Final(f), s0, r, g, None)
            && s.consts <= r.consts
  {
    hide Base, Sem, KindOk, Settled, Labelled, Above, Exp2Reg, DischargeVars, KindNew, Lands, Final, VarsOf, Inherits;
    DischargeVarsOk(m, f, s0, s, d);
    var (s1, d1) := DischargeVars(s, d);
    ReadyParts(s0, s1, d1);
    BaseParts(s0, s1, d1);
    var s2 := Reserve(FreeExp(s1, d1));
    FreeExpIs(s1, d1);
    NextKind(s1, s2, d1.k);
    SameCodeOk(m, VarsOf(d.k, f), s0, s1, s2, d1, None);
    SameLabels(s0, s1, s2);
    Exp2RegOk(m, VarsOf(d.k, f), s0, s2, d1, None, s0.freereg);
    VarsOne(d.k, f);
    FinalSame(m, f, VarsOf(d.k, f), s0, Exp2Reg(s2, d1, s0.freereg).0, ExpDesc(VNONRELOC(s0.freereg), [], []), None);
  }

  lemma VarsOne(k: Kind, f: Meaning)
    ensures VarsOf(k, f) == f || VarsOf(k, f) == Dropped(f)
  {
  }

  lemma SameLabels(s0: State, s: State, r: State)
    requires r.code == s.code && r.jpc == s.jpc && r.lasttarget == s.lasttarget
    ensures (Settled(s0, s) ==> Settled(s0, r)) && (Labelled(s) ==> Labelled(r))
  {
  }

  lemma SameJumps(d: ExpDesc, g: ExpDesc)
    requires g.t == d.t && g.f == d.f
    ensures HasJumps(g) <==> HasJumps(d)
  {
  }

  lemma NoJumpsEmpty(s0: State, s: State, d: ExpDesc)
    requires Base(s0, s, d) && !HasJumps(d)
    ensures d.t == [] && d.f == []
  {
    HeldParts(s, d);
    NoElements(d.t);
  }

  lemma InPlaceFrom(s0: State, s: State, d: ExpDesc)
    requires Ready(s0, s, d) && !HasJumps(d) && (d.k.VNONRELOC? || (d.k.VK? && d.k.k <= MAXINDEXRK))
    ensures InPlace(s0, s, d)
  {
    NoJumpsEmpty(s0, s, d);
  }

  /** `luaK_exp2anyreg` emits no code for a local variable. */
  function AnySem(d: ExpDesc, f: Meaning): Meaning {
    if (d.k.VLOCAL? || d.k.VNONRELOC?) && !HasJumps(d) then f else Final(f)
  }

  lemma AnyRegInPlace(m: Env, f: Meaning, s0: State, s: State, d: ExpDesc)
    requires Ready(s0, s, d) && Sem(m, f, s0, s, d, None) && Exp2AnyReg(s, d).0.consts <= m.k
    ensures var (r, g) := Exp2AnyReg(s, d);
            g.k.VNONRELOC? && InPlace(s0, r, g) && Sem(m, AnySem(d, f), s0, r, g, None) && s.consts <= r.consts
  {
    hide Base, Sem, KindOk, Exp2Reg, KindNew, Exp2NextReg, InPlace;
    hide HasJumps, Final, Settled, Labelled, Above, Dropped, Emit;
    DischargeVarsOk(m, f, s0, s, d);
    var (s1, d1) := DischargeVars(s, d);
    ReadyParts(s0, s1, d1);
    SameJumps(d, d1);
    if d1.k.VNONRELOC? && !HasJumps(d1) {
      InPlaceFrom(s0, s1, d1);
    } else {
      NextRegOk(m, VarsOf(d.k, f), s0, s1, d1);
      FinalVars(m, f, d.k, s0, Exp2NextReg(s1, d1).0, Exp2NextReg(s1, d1).1);
    }
  }

  lemma FinalVars(m: Env, f: Meaning, k: Kind, s0: State, s: State, d: ExpDesc)
    requires Sem(m, Final(VarsOf(k, f)), s0, s, d, None)
    ensures Sem(m, Final(f), s0, s, d, None)
  {
    hide Run, Keeps, KindValue, OutOk;
    forall p: nat, r | Enters(s0, s, p, r)
      ensures SemAt(m, Final(f), s0, s, d, None, p, r)
    {
      assert SemAt(m, Final(VarsOf(k, f)), s0, s, d, None, p, r);
      assert Final(VarsOf(k, f))(r, EntryTag(s0, p, r)) == Final(f)(r, EntryTag(s0, p, r)) by {
        FinalIs(f, r, EntryTag(s0, p, r));
        FinalIs(VarsOf(k, f), r, EntryTag(s0, p, r));
        DroppedIs(f, r, EntryTag(s0, p, r));
      }
    }
  }

  /** The operand is in place, and no code is emitted for it: a local variable, or a constant within reach. */
  predicate Still(s: State, d: ExpDesc) {
    !HasJumps(d) && (d.k.VLOCAL? || d.k.VNONRELOC? || (LiteralOf(d.k).Some? && |s.consts| <= MAXINDEXRK)
                     || (d.k.VK? && d.k.k <= MAXINDEXRK))
  }

  /** What `luaK_exp2RK` makes of an outcome. */
  function RkSem(s: State, d: ExpDesc, f: Meaning): Meaning { if Still(s, d) then Kept(f) else Final(f) }

  /** Without jumps control only stays. */
  function Kept(f: Meaning): Meaning { (r, t) => if f(r, t).Stays? then f(r, t) else Stays(ValueOf(f(r, t)), None) }

  lemma KeptOk(m: Env, f: Meaning, s0: State, s: State, d: ExpDesc)
    requires Sem(m, f, s0, s, d, None) && InPlace(s0, s, d)
    ensures Sem(m, Kept(f), s0, s, d, None)
  {
    hide Run, Keeps, KindValue, Base;
    forall p: nat, r | Enters(s0, s, p, r)
      ensures SemAt(m, Kept(f), s0, s, d, None, p, r)
    {
      assert SemAt(m, f, s0, s, d, None, p, r);
    }
  }

  /** `luaK_exp2RK` makes an operand of the expression. */
  lemma RkOk(m: Env, f: Meaning, s0: State, s: State, d: ExpDesc)
    requires Ready(s0, s, d) && Sem(m, f, s0, s, d, None) && Exp2RK(s, d).0.consts <= m.k
    ensures var (r, g) := Exp2RK(s, d);
            InPlace(s0, r, g) && Sem(m, RkSem(s, d, f), s0, r, g, None) && s.consts <= r.consts
  {
    hide Base, Sem, KindOk, KindNew, Exp2AnyReg, InPlace, HasJumps;
    hide Final, Kept, Settled, Labelled, Above, Dropped, Emit, Ready;
    if HasJumps(d) {
      JumpsToReg(s, d);
      AnyRegInPlace(m, f, s0, s, d);
    } else {
      DischargeVarsOk(m, f, s0, s, d);
      var (s1, d1) := DischargeVars(s, d);
      ReadyParts(s0, s1, d1);
      SameJumps(d, d1);
      VarsConsts(s, d);
      var lit := LiteralOf(d1.k);
      if lit.Some? && |s1.consts| <= MAXINDEXRK {
        LiteralOk(m, f, s0, s1, d1);
        KeptOk(m, f, s0, Exp2RK(s, d).0, Exp2RK(s, d).1);
      } else if d1.k.VK? && d1.k.k <= MAXINDEXRK {
        InPlaceFrom(s0, s1, d1);
        KeptOk(m, f, s0, s1, d1);
      } else {
        AnyRegInPlace(m, VarsOf(d.k, f), s0, s1, d1);
        if d1.k.VNONRELOC? { KeptOk(m, f, s0, Exp2AnyReg(s1, d1).0, Exp2AnyReg(s1, d1).1); }
        if !(d1.k.VNONRELOC? || d1.k.VLOCAL?) { FinalVars(m, f, d.k, s0, Exp2AnyReg(s1, d1).0, Exp2AnyReg(s1, d1).1); }
      }
    }
  }

  lemma VarsConsts(s: State, d: ExpDesc)
    ensures DischargeVars(s, d).0.consts == s.consts
  {
  }

  lemma LiteralOk(m: Env, f: Meaning, s0: State, s: State, d: ExpDesc)
    requires Ready(s0, s, d) && Sem(m, f, s0, s, d, None) && !HasJumps(d)
    requires LiteralOf(d.k).Some? && |s.consts| <= MAXINDEXRK && AddK(s, LiteralOf(d.k).value).consts <= m.k
    ensures var v := LiteralOf(d.k).value;
            var r, g := AddK(s, v), d.(k := VK(KOf(s, v)));
            InPlace(s0, r, g) && Sem(m, f, s0, r, g, None) && s.consts <= r.consts
  {
    hide Base, Sem, KindOk, KindNew, HasJumps, AddK, KOf, Settled, Labelled, Above;
    var v := LiteralOf(d.k).value;
    ReadyParts(s0, s, d);
    NoJumpsEmpty(s0, s, d);
    ConstsOk(m, f, s0, s, d, None, v);
    AddKIs(s, v);
    SameLabels(s0, s, AddK(s, v));
    SameAbove(s0, s, AddK(s, v));
    RekindOk(m, f, s0, AddK(s, v), d, None, VK(KOf(s, v)));
  }

  lemma JumpsToReg(s: State, d: ExpDesc)
    requires HasJumps(d)
    ensures Exp2RK(s, d) == Exp2AnyReg(s, d)
  {
    hide Exp2AnyReg;
    AnyRegEnd(s, d);
    var (q, g) := Exp2AnyReg(s, d);
    RegAgain(q, g);
  }

  lemma AnyRegEnd(s: State, d: ExpDesc)
    requires HasJumps(d)
    ensures var g := Exp2AnyReg(s, d).1; g.k.VNONRELOC? && !HasJumps(g)
  {
    hide LoadTo, PatchList, LoadBools, NeedValue;
  }

  lemma RegAgain(s: State, d: ExpDesc)
    requires d.k.VNONRELOC? && !HasJumps(d)
    ensures Exp2AnyReg(s, d) == (s, d)
  {
  }

  /** What is in place stays there. */
  lemma RkAgain(s: State, d: ExpDesc, s0: State, r: State)
    requires InPlace(s0, r, d)
    ensures Exp2RK(s, d) == (s, d)
  {
  }
}
