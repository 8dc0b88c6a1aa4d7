/** Conditions: `jumponcond`, `luaK_goiftrue`, `luaK_goiffalse` and `codenot`, and what they make of an outcome. */
module CodeGenCond {
  import opened Common
  import opened JumpCode
  import opened CodeGen
  import opened CodeGenRun
  import opened CodeGenSem

  // A test and its jump

  predicate Testing(i: Ins) {
    IsTest(i) && (i.TestSet? ==> i.to.None?)
  }

  lemma CondJumpIs(s: State, i: Ins)
    ensures CondJump(s, i) == Emit(s, i).(code := Emit(s, i).code + [Jmp(NO_JUMP)], jpc := [])
    ensures CondJump(s, i).code == DischargeJpc(s).code + [i, Jmp(NO_JUMP)]
    ensures |CondJump(s, i).code| == |s.code| + 2
  {
  }

  lemma CondJumpRun(m: Env, s: State, i: Ins, start: nat, r: Regs)
    requires WellFormed(s.code) && Distinct(s.jpc) && AllPending(s.code, s.jpc) && StartOk(s.code, start) && Testing(i)
    ensures start <= |CondJump(s, i).code|
    ensures var out := RunAt(m, s.code, start, r);
            RunAt(m, CondJump(s, i).code, start, r) ==
              if !IsHere(s.jpc, out) then out
              else if Takes(m, out.r, i) then Exit(|s.code| + 1, out.r)
              else Fall(out.r)
  {
    hide Takes, PatchList;
    var n := |s.code|;
    DischargedRun(m, s, [i, Jmp(NO_JUMP)], start, r);
    CondJumpIs(s, i);
    var d := CondJump(s, i).code;
    assert d[n] == i && d[n + 1] == Jmp(NO_JUMP) && |d| == n + 2;
    TestRun(m, d, n, RunAt(m, s.code, start, r).r);
  }

  lemma TestRun(m: Env, c: seq<Ins>, n: nat, r: Regs)
    requires |c| == n + 2 && Testing(c[n]) && c[n + 1] == Jmp(NO_JUMP)
    ensures Run(m, c, n, r) == if Takes(m, r, c[n]) then Exit(n + 1, r) else Fall(r)
  {
    if Takes(m, r, c[n]) {
      assert Effect(m, r, c[n]) == r;
      assert Run(m, c, n + 1, r) == Exit(n + 1, r);
    } else {
      assert Run(m, c, n + 2, r) == Fall(r);
    }
  }

  lemma CondJumpWellFormed(s: State, i: Ins)
    requires WellFormed(s.code) && Distinct(s.jpc) && AllPending(s.code, s.jpc) && Testing(i)
    ensures WellFormed(CondJump(s, i).code) && NoTarget(CondJump(s, i).code)
  {
    CondJumpIs(s, i);
    DischargedWellFormed(s.code, s.jpc);
    var c, d := DischargeJpc(s).code, CondJump(s, i).code;
    forall k | 0 <= k < |d|
      ensures OkAt(d, k) && (d[k].Jmp? ==> d[k].dest < |d|)
    {
      if k < |c| { assert OkAt(c, k); }
    }
  }

  lemma DistinctMore(a: seq<nat>, b: seq<nat>, x: nat)
    requires Distinct(a + b) && x !in a && x !in b
    ensures Distinct(a + [x] + b) && Distinct(a + b + [x])
  {
    DistinctParts(a, b);
    DistinctJoin(a, [x]);
    DistinctJoin(a + [x], b);
    assert forall y :: y in a + b ==> y in a || y in b;
    DistinctJoin(a + b, [x]);
  }

  /** The new jump joins one of the lists, or is the jump of a comparison. */
  predicate Adds(d: ExpDesc, d': ExpDesc, x: nat) {
    || d' == ExpDesc(VTRUE, d.t + [x], d.f)
    || d' == ExpDesc(VTRUE, d.t, d.f + [x])
    || d' == ExpDesc(VJMP(x), d.t, d.f)
  }

  /** After a test there is no LOADNIL to merge with, and no label. */
  ghost predicate Tidy(s0: State, s: State, r: State) {
    Sealed(r) && Labelled(r) && Wider(s0, s, r) && (Above(s0, s) ==> Above(s0, r))
  }

  lemma CondJumpBase(s0: State, s: State, d: ExpDesc, i: Ins, d': ExpDesc)
    requires Base(s0, s, d) && !d.k.VJMP? && Testing(i) && Adds(d, d', |s.code| + 1)
    ensures Base(s0, CondJump(s, i), d') && Untouched(s, CondJump(s, i)) && CondJump(s, i).jpc == []
    ensures NoTarget(CondJump(s, i).code) && Tidy(s0, s, CondJump(s, i))
  {
    hide *;
    BaseParts(s0, s, d);
    HeldParts(s, d);
    GrownLength(s0, s);
    CondJumpWellFormed(s, i);
    EmitLists(s0, s, d, i);
    EmitNil(s0, s, i);
    CondJumpGrown(s0, s, i);
    CondJumpLists(s0, s, d, i, d');
    BaseFrom(s0, CondJump(s, i), d');
  }

  lemma BaseFrom(s0: State, s: State, d: ExpDesc)
    requires Start(s0) && WellFormed(s.code) && Lists(s, d) && Grown(s0, s) && Recent(s0, s.jpc)
             && Recent(s0, d.t + d.f)
    ensures Base(s0, s, d)
  {
  }

  lemma CondJumpGrown(s0: State, s: State, i: Ins)
    requires Grown(s0, Emit(s, i)) && Untouched(s, Emit(s, i)) && |s0.code| <= |s.code| && NoTarget(CondJump(s, i).code)
    requires Wider(s0, s, Emit(s, i)) && (Above(s0, s) ==> Above(s0, Emit(s, i)))
    ensures Grown(s0, CondJump(s, i)) && Untouched(s, CondJump(s, i)) && CondJump(s, i).jpc == []
            && Tidy(s0, s, CondJump(s, i))
  {
    var e, r := Emit(s, i), CondJump(s, i);
    CondJumpIs(s, i);
    assert forall k :: 0 <= k < |e.code| ==> r.code[k] == e.code[k];
    forall k | 0 <= k < |s0.code|
      ensures GrownAt(s0, r, k)
    {
      assert GrownAt(s0, e, k);
    }
  }

  lemma CondJumpLists(s0: State, s: State, d: ExpDesc, i: Ins, d': ExpDesc)
    requires Base(s0, s, d) && Lists(s, d) && !d.k.VJMP? && Adds(d, d', |s.code| + 1) && Untouched(s, CondJump(s, i))
    ensures Lists(CondJump(s, i), d') && Recent(s0, CondJump(s, i).jpc) && Recent(s0, d'.t + d'.f)
  {
    hide WellFormed, Untouched, Start, CondJump;
    var x, r := |s.code| + 1, CondJump(s, i);
    CondJumpIs(s, i);
    CondJumpEnd(s, i);
    HeldParts(s, d);
    HeldPending(s, d);
    DistinctMore(d.t, d.f, x);
    assert forall j :: j in d'.t + d'.f ==> j == x || j in d.t + d.f;
    assert Held(r, d') == (if d'.t == d.t then d.t + d.f + [x] else d.t + [x] + d.f);
    forall j | j in d.t || j in d.f
      ensures Pending(r.code, j)
    {
      StillPending(s, r, j);
    }
    assert |s0.code| <= |s.code|;
  }

  lemma StillPending(s: State, r: State, j: nat)
    requires Untouched(s, r) && Pending(s.code, j) && j !in s.jpc
    ensures Pending(r.code, j)
  {
  }

  lemma CondJumpEnd(s: State, i: Ins)
    ensures var r := CondJump(s, i);
            |r.code| == |s.code| + 2 && r.code[|s.code|] == i && r.code[|s.code| + 1] == Jmp(NO_JUMP) && r.jpc == []
  {
    CondJumpIs(s, i);
  }

  lemma CondJumpOther(s: State, i: Ins)
    ensures var r := CondJump(s, i);
            |r.code| == |s.code| + 2 && r.freereg == s.freereg && r.consts == s.consts && r.nactvar == s.nactvar
                && r.lasttarget == s.lasttarget
  {
  }

  lemma HeldPending(s: State, d: ExpDesc)
    requires Lists(s, d)
    ensures forall j :: j in d.t || j in d.f || j in s.jpc ==> Pending(s.code, j)
  {
    assert forall j :: j in d.t || j in d.f || j in s.jpc ==> j in Held(s, d);
  }

  // Testing the value that is here

  function Leaving(d: ExpDesc, cond: bool, l: seq<nat>): ExpDesc {
    if cond then ExpDesc(VTRUE, d.t, d.f + l) else ExpDesc(VTRUE, d.t + l, d.f)
  }

  /** Control goes on, with `true` for a value, if the value is `cond`; else it leaves, and may carry the value. */
  function TestOf(cond: bool, carries: bool, o: Outcome): Outcome {
    match o
    case Stays(v, _) =>
      if Truthy(v) == cond then Stays(Bool(true), None) else Leaves(!cond, if carries then Some(v) else None)
    case Leaves(_, _) => o
  }

  function Tested(cond: bool, carries: bool, f: Meaning): Meaning { (r, t) => TestOf(cond, carries, f(r, t)) }

  /** A test that jumps unless the value is `cond`; a TESTSET carries it. */
  ghost predicate TestsFor(m: Env, c: seq<Ins>, k: Kind, i: Ins, cond: bool) {
    && (forall r :: Takes(m, r, i) <==> Truthy(KindValue(m, c, k, r)) != cond)
    && (i.TestSet? ==> forall r :: Get(r, i.b) == KindValue(m, c, k, r))
  }

  lemma TestOut(m: Env, s: State, d: ExpDesc, i: Ins, cond: bool, o: Outcome, out: Out)
    requires Lists(s, d) && Untouched(s, CondJump(s, i)) && !d.k.VJMP? && Testing(i)
             && TestsFor(m, s.code, d.k, i, cond)
    requires OutOk(m, s, d, o, out)
    ensures var q := if !IsHere(s.jpc, out) then out
                     else if Takes(m, out.r, i) then Exit(|s.code| + 1, out.r) else Fall(out.r);
            q.r == out.r && OutOk(m, CondJump(s, i), Leaving(d, cond, [|s.code| + 1]), TestOf(cond, i.TestSet?, o), q)
  {
    hide Takes, KindValue, CondJump, Untouched, Run, TagAt;
    CondJumpEnd(s, i);
    HeldParts(s, d);
    if o.Leaves? {
      ExitStays(s, CondJump(s, i), d, out.j, out.r);
    } else if Takes(m, out.r, i) {
      assert |s.code| + 1 in [|s.code| + 1];
      NewTag(CondJump(s, i).code, |s.code|, i, out.r);
    } else {
      TrueIs(m, CondJump(s, i).code, out.r);
    }
  }

  lemma NewTag(c: seq<Ins>, n: nat, i: Ins, r: Regs)
    requires n < |c| && c[n] == i && Testing(i)
    ensures TagAt(c, n + 1, r) == if i.TestSet? then Some(Get(r, i.b)) else None
  {
  }

  lemma TrueIs(m: Env, c: seq<Ins>, r: Regs)
    ensures KindValue(m, c, VTRUE, r) == Bool(true)
  {
  }

  /** Testing the value that is here, and jumping. */
  lemma TestOk(m: Env, f: Meaning, s0: State, s: State, d: ExpDesc, i: Ins, cond: bool)
    requires Base(s0, s, d) && Sem(m, f, s0, s, d, None) && !d.k.VJMP? && Testing(i)
             && TestsFor(m, s.code, d.k, i, cond)
    ensures var r, g := CondJump(s, i), Leaving(d, cond, [|s.code| + 1]);
            Base(s0, r, g) && Sem(m, Tested(cond, i.TestSet?, f), s0, r, g, None) && Tidy(s0, s, r)
  {
    hide Base, SemAt, CondJump, TestsFor, Enters, Tested, Tidy;
    var r, g := CondJump(s, i), Leaving(d, cond, [|s.code| + 1]);
    CondJumpBase(s0, s, d, i, g);
    forall p: nat, q | Enters(s0, r, p, q)
      ensures SemAt(m, Tested(cond, i.TestSet?, f), s0, r, g, None, p, q)
    {
      TestSemAt(m, f, s0, s, d, i, cond, p, q);
    }
  }

  lemma TidyParts(s0: State, s: State, r: State)
    requires Tidy(s0, s, r)
    ensures Sealed(r) && Labelled(r) && Wider(s0, s, r) && (Above(s0, s) ==> Above(s0, r))
  {
  }

  lemma TestSemAt(m: Env, f: Meaning, s0: State, s: State, d: ExpDesc, i: Ins, cond: bool, p: nat, q: Regs)
    requires Base(s0, s, d) && Sem(m, f, s0, s, d, None) && !d.k.VJMP? && Testing(i)
             && TestsFor(m, s.code, d.k, i, cond)
    requires Enters(s0, CondJump(s, i), p, q)
    ensures SemAt(m, Tested(cond, i.TestSet?, f), s0, CondJump(s, i), Leaving(d, cond, [|s.code| + 1]), None, p, q)
  {
    hide *;
    CondJumpBase(s0, s, d, i, Leaving(d, cond, [|s.code| + 1])) by { LeavingAdds(d, cond, |s.code| + 1); }
    TidyParts(s0, s, CondJump(s, i));
    BaseParts(s0, s, d);
    HeldParts(s, d);
    EntersBack(s0, s, CondJump(s, i), p, q);
    EntersAt(s0, s, p, q);
    EntryOk(s0, s, p);
    SemParts(m, f, s0, s, d, None, p, q);
    CondJumpRun(m, s, i, p, q);
    TestOut(m, s, d, i, cond, f(q, EntryTag(s0, p, q)), RunAt(m, s.code, p, q));
    TestedIs(cond, i.TestSet?, f, q, EntryTag(s0, p, q));
    SemFrom(m, Tested(cond, i.TestSet?, f), s0, CondJump(s, i), Leaving(d, cond, [|s.code| + 1]), None, p, q);
  }

  lemma LeavingAdds(d: ExpDesc, cond: bool, x: nat)
    ensures Adds(d, Leaving(d, cond, [x]), x)
  {
  }

  lemma TestedIs(cond: bool, carries: bool, f: Meaning, r: Regs, t: Option<V>)
    ensures Tested(cond, carries, f)(r, t) == TestOf(cond, carries, f(r, t))
  {
  }

  // `jumponcond`

  /** An OP_NOT that is still to be relocated. */
  predicate IsNot(s: State, k: Kind) { k.VRELOCABLE? && k.pc < |s.code| && s.code[k.pc].Not? }

  /** Without the OP_NOT at its end the code runs the same. */
  lemma CutBase(s0: State, s: State, d: ExpDesc)
    requires Base(s0, s, d) && d.k.VRELOCABLE? && KindOk(s, d.k) && KindNew(s0, d.k)
    ensures var p := s.(code := s.code[..|s.code| - 1]);
            Base(s0, p, d.(k := VTRUE)) && Wider(s0, s, p) && (Above(s0, s) ==> Above(s0, p))
                && |p.code| + 1 == |s.code|
  {
    var p, g := s.(code := s.code[..|s.code| - 1]), d.(k := VTRUE);
    CutWellFormed(s.code);
    assert Held(p, g) == Held(s, d);
    forall j | j in Held(s, d)
      ensures Pending(p.code, j)
    {
      assert Pending(s.code, j);
    }
    forall i | 0 <= i < |s0.code|
      ensures GrownAt(s0, p, i)
    {
      assert GrownAt(s0, s, i);
    }
  }

  lemma CutRun(m: Env, s0: State, s: State, p: nat, r: Regs)
    requires Start(s0) && Grown(s0, s) && WellFormed(s.code) && NoTarget(s.code) && |s.code| > |s0.code|
             && Relocatable(s.code[|s.code| - 1])
    requires p == |s0.code| || p in s0.jpc
    ensures p < |s.code| && StartOk(s.code[..|s.code| - 1], p)
    ensures var out := RunAt(m, s.code[..|s.code| - 1], p, r);
            RunAt(m, s.code, p, r) == if out.Fall? then Fall(Effect(m, out.r, s.code[|s.code| - 1])) else out
    ensures RunAt(m, s.code, p, r).r == RunAt(m, s.code[..|s.code| - 1], p, r).r
  {
    var n := |s.code| - 1;
    EntryOk(s0, s, p);
    CutWellFormed(s.code);
    CutStart(s.code, p);
    assert s.code == s.code[..n] + [s.code[n]];
    RunLast(m, s.code[..n], s.code[n], p, r);
  }

  /** `TEST` on the operand of the removed OP_NOT. */
  lemma NotTestSemAt(m: Env, f: Meaning, s0: State, s: State, d: ExpDesc, cond: bool, p: nat, q: Regs)
    requires Base(s0, s, d) && Sem(m, f, s0, s, d, None) && d.k.VRELOCABLE? && KindOk(s, d.k) && KindNew(s0, d.k)
             && s.code[d.k.pc].Not?
    requires var c := s.(code := s.code[..|s.code| - 1]); Enters(s0, CondJump(c, Test(s.code[d.k.pc].b, cond)), p, q)
    ensures var c := s.(code := s.code[..|s.code| - 1]);
            var i := Test(s.code[d.k.pc].b, cond);
            SemAt(m, Tested(cond, false, f), s0, CondJump(c, i), Leaving(d, cond, [|c.code| + 1]), None, p, q)
  {
    hide *;
    RelocParts(s0, s, d.k);
    var c := s.(code := s.code[..|s.code| - 1]);
    var i := Test(s.code[d.k.pc].b, cond);
    CutBase(s0, s, d);
    TestIs(s.code[d.k.pc].b, cond);
    LeavingAdds(d.(k := VTRUE), cond, |c.code| + 1);
    SameLeaving(d, cond, [|c.code| + 1]);
    CondJumpBase(s0, c, d.(k := VTRUE), i, Leaving(d, cond, [|c.code| + 1]));
    TidyParts(s0, c, CondJump(c, i));
    WiderTwice(s0, s, c, CondJump(c, i));
    BaseParts(s0, s, d);
    BaseParts(s0, c, d.(k := VTRUE));
    HeldParts(c, d.(k := VTRUE));
    EntersBack(s0, s, CondJump(c, i), p, q);
    EntersAt(s0, s, p, q);
    SemParts(m, f, s0, s, d, None, p, q);
    CutRun(m, s0, s, p, q);
    CondJumpRun(m, c, i, p, q);
    NotTestOut(m, s, d, cond, f(q, EntryTag(s0, p, q)), RunAt(m, s.code, p, q), RunAt(m, c.code, p, q));
    TestedIs(cond, false, f, q, EntryTag(s0, p, q));
    SemFrom(m, Tested(cond, false, f), s0, CondJump(c, i), Leaving(d, cond, [|c.code| + 1]), None, p, q);
  }

  lemma TestIs(b: nat, cond: bool)
    ensures Testing(Test(b, cond))
  {
  }

  lemma SameLeaving(d: ExpDesc, cond: bool, l: seq<nat>)
    ensures Leaving(d.(k := VTRUE), cond, l) == Leaving(d, cond, l)
  {
  }

  lemma WiderTwice(s0: State, s: State, c: State, r: State)
    requires Wider(s0, s, c) && Wider(s0, c, r)
    ensures Wider(s0, s, r)
  {
  }

  lemma NotTestOut(m: Env, s: State, d: ExpDesc, cond: bool, o: Outcome, out: Out, cut: Out)
    requires Lists(s, d) && OutOk(m, s, d, o, out) && d.k.VRELOCABLE? && d.k.pc + 1 == |s.code| && s.code[d.k.pc].Not?
             && s.jpc == []
    requires cut.r == out.r && if cut.Fall? then out.Fall? else out == cut
    requires var c := s.(code := s.code[..|s.code| - 1]);
             Untouched(c, CondJump(c, Test(s.code[d.k.pc].b, cond))) && Lists(c, d.(k := VTRUE))
    ensures var c := s.(code := s.code[..|s.code| - 1]);
            var i := Test(s.code[d.k.pc].b, cond);
            var q := if !IsHere(c.jpc, cut) then cut
                     else if Takes(m, cut.r, i) then Exit(|c.code| + 1, cut.r) else Fall(cut.r);
            q.r == out.r && OutOk(m, CondJump(c, i), Leaving(d, cond, [|c.code| + 1]), TestOf(cond, false, o), q)
  {
    hide CondJump, Untouched, Run;
    var c := s.(code := s.code[..|s.code| - 1]);
    var i := Test(s.code[d.k.pc].b, cond);
    CondJumpEnd(c, i);
    HeldParts(c, d.(k := VTRUE));
    HeldPending(s, d);
    if o.Leaves? {
      ExitStays(c, CondJump(c, i), d.(k := VTRUE), out.j, out.r);
      assert TagAt(c.code, out.j, out.r) == TagAt(s.code, out.j, out.r);
    }
  }

  lemma FreeExpIs(s: State, d: ExpDesc)
    ensures var r := FreeExp(s, d);
            r.code == s.code && r.jpc == s.jpc && r.nactvar == s.nactvar && r.consts == s.consts
                && r.lasttarget == s.lasttarget
  {
  }

  /** What is known after a jump out of the expression. */
  ghost predicate Left(m: Env, f: Meaning, s0: State, s: State, r: State, g: ExpDesc) {
    && Base(s0, r, g) && Sem(m, f, s0, r, g, None) && s.consts <= r.consts && r.freereg == s0.freereg && Above(s0, r)
  }

  /** `jumponcond` leaves unless the expression is `cond`. */
  lemma JumpOnCondOk(m: Env, f: Meaning, s0: State, s: State, d: ExpDesc, cond: bool)
    requires Ready(s0, s, d) && Sem(m, f, s0, s, d, None) && !d.k.VJMP? && !d.k.VLOCAL? && !d.k.VUPVAL?
    requires JumpOnCond(s, d, !cond).consts <= m.k
    ensures var r := JumpOnCond(s, d, !cond);
            |r.code| >= 2 && Left(m, Tested(cond, !IsNot(s, d.k), f), s0, s, r, Leaving(d, cond, [|r.code| - 1]))
  {
    hide Base, Sem, Discharge2AnyReg, CondJump, KindOk, Tested, Above, Tidy, FreeExp, Dropped;
    if IsNot(s, d.k) {
      NotCaseOk(m, f, s0, s, d, cond);
    } else {
      var (q, g) := Discharge2AnyReg(s, d);
      var q1 := FreeExp(q, g);
      var i := TestSet(None, if g.k.VNONRELOC? then g.k.reg else 0, !cond);
      CondJumpOther(q1, i);
      FreeExpIs(q, g);
      AnyRegOk(m, f, s0, s, d);
      SameCodeOk(m, AnyRegOf(d.k, f), s0, q, q1, g, None);
      TestOk(m, AnyRegOf(d.k, f), s0, q1, g, i, cond);
      TidyParts(s0, q1, CondJump(q1, i));
      DropTested(m, f, s0, d.k, cond, CondJump(q1, i), Leaving(g, cond, [|q1.code| + 1]));
    }
  }

  /** Testing does not depend on the tag. */
  lemma DropTested(m: Env, f: Meaning, s0: State, k: Kind, cond: bool, s: State, d: ExpDesc)
    requires Sem(m, Tested(cond, true, AnyRegOf(k, f)), s0, s, d, None)
    ensures Sem(m, Tested(cond, true, f), s0, s, d, None)
  {
    hide Run, Keeps, KindValue;
    forall p: nat, q | Enters(s0, s, p, q)
      ensures SemAt(m, Tested(cond, true, f), s0, s, d, None, p, q)
    {
      assert SemAt(m, Tested(cond, true, AnyRegOf(k, f)), s0, s, d, None, p, q);
      assert Tested(cond, true, AnyRegOf(k, f))(q, EntryTag(s0, p, q)) ==
               Tested(cond, true, f)(q, EntryTag(s0, p, q)) by {
        TestedIs(cond, true, f, q, EntryTag(s0, p, q));
        TestedIs(cond, true, AnyRegOf(k, f), q, EntryTag(s0, p, q));
        DroppedIs(f, q, EntryTag(s0, p, q));
      }
    }
  }

  lemma NotCaseOk(m: Env, f: Meaning, s0: State, s: State, d: ExpDesc, cond: bool)
    requires Ready(s0, s, d) && Sem(m, f, s0, s, d, None) && IsNot(s, d.k)
    ensures var r := JumpOnCond(s, d, !cond);
            |r.code| >= 2 && Left(m, Tested(cond, false, f), s0, s, r, Leaving(d, cond, [|r.code| - 1]))
  {
    hide Base, SemAt, CondJump, KindOk, Sealed, Untouched, Enters, Tested, Above, Tidy, KindNew, Settled, Labelled;
    ReadyParts(s0, s, d);
    RelocParts(s0, s, d.k);
    var c := s.(code := s.code[..|s.code| - 1]);
    var i := Test(s.code[d.k.pc].b, cond);
    CutBase(s0, s, d);
    CondJumpOther(c, i);
    LeavingAdds(d.(k := VTRUE), cond, |c.code| + 1);
    SameLeaving(d, cond, [|c.code| + 1]);
    CondJumpBase(s0, c, d.(k := VTRUE), i, Leaving(d, cond, [|c.code| + 1]));
    TidyParts(s0, c, CondJump(c, i));
    forall p: nat, q | Enters(s0, CondJump(c, i), p, q)
      ensures SemAt(m, Tested(cond, false, f), s0, CondJump(c, i), Leaving(d, cond, [|c.code| + 1]), None, p, q)
    {
      NotTestSemAt(m, f, s0, s, d, cond, p, q);
    }
    SemIs(m, Tested(cond, false, f), s0, CondJump(c, i), Leaving(d, cond, [|c.code| + 1]), None);
  }

  // A jump that is always taken

  lemma DistinctSwap(a: seq<nat>, b: seq<nat>)
    requires Distinct(a + b)
    ensures Distinct(b + a)
  {
    DistinctParts(a, b);
    DistinctJoin(b, a);
  }

  lemma JumpWellFormed(c: seq<Ins>)
    requires WellFormed(c)
    ensures WellFormed(c + [Jmp(NO_JUMP)])
  {
    var d := c + [Jmp(NO_JUMP)];
    forall k | 0 <= k < |d|
      ensures OkAt(d, k)
    {
      if k < |c| { assert OkAt(c, k); }
    }
  }

  lemma JumpRun(m: Env, c: seq<Ins>, start: nat, r: Regs)
    requires WellFormed(c) && StartOk(c, start)
    ensures start <= |c + [Jmp(NO_JUMP)]|
    ensures var out := RunAt(m, c, start, r);
            RunAt(m, c + [Jmp(NO_JUMP)], start, r) == if out.Fall? then Exit(|c|, out.r) else out
  {
    var d := c + [Jmp(NO_JUMP)];
    forall i | 0 <= i < |c|
      ensures SameAt(c, d, i)
    {
    }
    RunAtContinues(m, c, d, start, r);
    var out := RunAt(m, c, start, r);
    if out.Exit? && out.j > 0 { assert OkAt(c, out.j - 1) && OkAt(c, out.j); }
  }

  lemma BareBase(s0: State, s: State, d: ExpDesc, cond: bool)
    requires Base(s0, s, d) && !d.k.VJMP?
    ensures Base(s0, Jump(s), Leaving(d, cond, JumpsOf(s))) && Wider(s0, s, Jump(s))
            && (Above(s0, s) ==> Above(s0, Jump(s)))
  {
    hide *;
    BaseParts(s0, s, d);
    GrownLength(s0, s);
    JumpWellFormed(s.code);
    JumpIs(s);
    BareGrown(s0, s);
    BareLists(s0, s, d, cond);
    BaseFrom(s0, Jump(s), Leaving(d, cond, JumpsOf(s)));
  }

  lemma BareGrown(s0: State, s: State)
    requires Grown(s0, s)
    ensures Grown(s0, Jump(s)) && Wider(s0, s, Jump(s)) && (Above(s0, s) ==> Above(s0, Jump(s)))
  {
    var r := Jump(s);
    forall i | 0 <= i < |s0.code|
      ensures GrownAt(s0, r, i)
    {
      assert GrownAt(s0, s, i);
    }
  }

  lemma BareLists(s0: State, s: State, d: ExpDesc, cond: bool)
    requires Lists(s, d) && !d.k.VJMP? && |s0.code| <= |s.code| && Recent(s0, s.jpc) && Recent(s0, d.t + d.f)
    ensures var g := Leaving(d, cond, JumpsOf(s)); Lists(Jump(s), g) && Recent(s0, Jump(s).jpc) && Recent(s0, g.t + g.f)
  {
    hide Distinct;
    var r, g, n := Jump(s), Leaving(d, cond, JumpsOf(s)), |s.code|;
    HeldParts(s, d);
    HeldPending(s, d);
    assert Held(s, d) == s.jpc + d.t + d.f;
    BareDistinct(s.jpc, d.t, d.f, n);
    assert Held(r, g) == if cond then d.t + (d.f + ([n] + s.jpc)) else d.t + ([n] + s.jpc) + d.f;
    assert forall j :: j in g.t + g.f ==> j == n || j in s.jpc || j in d.t + d.f;
    assert forall j :: j in Held(r, g) ==> j == n || j in s.jpc || j in d.t || j in d.f;
  }

  lemma BareDistinct(p: seq<nat>, t: seq<nat>, f: seq<nat>, n: nat)
    requires Distinct(p + t + f) && n !in p && n !in t && n !in f
    ensures Distinct(t + (f + ([n] + p))) && Distinct(t + ([n] + p) + f)
  {
    var x := [n] + p;
    assert p + t + f == (p + t) + f == p + (t + f);
    DistinctParts(p + t, f);
    DistinctParts(p, t + f);
    DistinctParts(p, t);
    DistinctParts(t, f);
    assert forall y :: y in t ==> y in p + t && y in t + f;
    assert forall y :: y in f ==> y in t + f;
    DistinctJoin([n], p);
    DistinctJoin(f, x);
    DistinctJoin(t, f + x);
    DistinctJoin(t, x);
    DistinctJoin(t + x, f);
  }

  lemma DistinctRotate(t: seq<nat>, p: seq<nat>, f: seq<nat>)
    requires Distinct(p + t + f)
    ensures Distinct(t + (p + f))
  {
    assert p + t + f == (p + t) + f == p + (t + f);
    DistinctParts(p + t, f);
    DistinctParts(p, t + f);
    DistinctParts(p, t);
    DistinctParts(t, f);
    assert forall x :: x in t ==> x in p + t && x in t + f;
    assert forall x :: x in p ==> x in p + t;
    DistinctJoin(p, f);
    DistinctJoin(t, p + f);
  }

  lemma DistinctJoin(a: seq<nat>, b: seq<nat>)
    requires Distinct(a) && Distinct(b) && forall x :: x in a ==> x !in b
    ensures Distinct(a + b)
  {
    var u := a + b;
    forall i, j | 0 <= i < j < |u|
      ensures u[i] != u[j]
    {
      if i < |a| <= j { assert u[i] in a && u[j] in b; }
    }
  }

  /** Pending jumps to here are merged into the list, with whatever they carry. */
  function BareOf(cond: bool, o: Outcome): Outcome { if o.Stays? then Leaves(!cond, o.tag) else o }

  function Bared(cond: bool, f: Meaning): Meaning { (r, t) => BareOf(cond, f(r, t)) }

  lemma BareOut(m: Env, s: State, d: ExpDesc, cond: bool, o: Outcome, out: Out)
    requires Lists(s, d) && WellFormed(s.code) && AlwaysJumps(d.k, cond) && OutOk(m, s, d, o, out)
    ensures var q := if out.Fall? then Exit(|s.code|, out.r) else out;
            OutOk(m, Jump(s), Leaving(d, cond, JumpsOf(s)), BareOf(cond, o), q)
  {
    HeldParts(s, d);
    HeldPending(s, d);
    if |s.code| > 0 { assert OkAt(s.code, |s.code| - 1); }
    assert forall i :: 0 <= i < |s.code| ==> Jump(s).code[i] == s.code[i];
  }

  lemma BareOk(m: Env, f: Meaning, s0: State, s: State, d: ExpDesc, cond: bool)
    requires Base(s0, s, d) && Sem(m, f, s0, s, d, None) && AlwaysJumps(d.k, cond)
    ensures var r, g := Jump(s), Leaving(d, cond, JumpsOf(s));
            Base(s0, r, g) && Sem(m, Bared(cond, f), s0, r, g, None) && (Above(s0, s) ==> Above(s0, r))
  {
    hide Base, SemAt, Enters, Jump, Bared;
    var r, g := Jump(s), Leaving(d, cond, JumpsOf(s));
    BareBase(s0, s, d, cond);
    forall p: nat, q | Enters(s0, r, p, q)
      ensures SemAt(m, Bared(cond, f), s0, r, g, None, p, q)
    {
      BareSemAt(m, f, s0, s, d, cond, p, q);
    }
  }

  lemma BareSemAt(m: Env, f: Meaning, s0: State, s: State, d: ExpDesc, cond: bool, p: nat, q: Regs)
    requires Base(s0, s, d) && Sem(m, f, s0, s, d, None) && AlwaysJumps(d.k, cond) && Enters(s0, Jump(s), p, q)
    ensures SemAt(m, Bared(cond, f), s0, Jump(s), Leaving(d, cond, JumpsOf(s)), None, p, q)
  {
    hide *;
    LiteralKind(d.k, cond);
    BareBase(s0, s, d, cond);
    BaseParts(s0, s, d);
    EntersBack(s0, s, Jump(s), p, q);
    EntersAt(s0, s, p, q);
    EntryOk(s0, s, p);
    SemParts(m, f, s0, s, d, None, p, q);
    JumpRun(m, s.code, p, q);
    BareOut(m, s, d, cond, f(q, EntryTag(s0, p, q)), RunAt(m, s.code, p, q));
    JumpIs(s);
    BaredIs(cond, f, q, EntryTag(s0, p, q));
    BareKeeps(m, s0, s, p, q);
    SemFrom(m, Bared(cond, f), s0, Jump(s), Leaving(d, cond, JumpsOf(s)), None, p, q);
  }

  lemma LiteralKind(k: Kind, cond: bool)
    requires AlwaysJumps(k, cond)
    ensures !k.VJMP?
  {
  }

  lemma BareKeeps(m: Env, s0: State, s: State, p: nat, q: Regs)
    requires p <= |s.code|
    ensures var out := RunAt(m, s.code, p, q); (if out.Fall? then Exit(|s.code|, out.r) else out).r == out.r
  {
  }

  lemma BaredIs(cond: bool, f: Meaning, r: Regs, t: Option<V>)
    ensures Bared(cond, f)(r, t) == BareOf(cond, f(r, t))
  {
  }

  lemma JumpIs(s: State)
    ensures Jump(s).code == s.code + [Jmp(NO_JUMP)]
  {
  }

  // Inverting a comparison

  function Inverted(i: Ins): Ins {
    if i.Compare? then i.(cond := !i.cond) else i
  }

  /** The code of a comparison: something, then the comparison and its jump. */
  lemma CompareCut(s: State, k: Kind)
    requires k.VJMP? && KindOk(s, k) && WellFormed(s.code) && Pending(s.code, k.jump)
    ensures var n := |s.code|;
            var p := s.(code := s.code[..n - 2]);
            && WellFormed(p.code) && n >= 2 && s.code[n - 2].Compare? && p.jpc == []
            && s.code == CondJump(p, s.code[n - 2]).code
            && InvertJump(s.code, k.jump) == CondJump(p, Inverted(s.code[n - 2])).code
  {
    var c, n := s.code, |s.code|;
    var p := c[..n - 2];
    forall i | 0 <= i < |p|
      ensures OkAt(p, i)
    {
      assert OkAt(c, i);
    }
    assert c == p + [c[n - 2], Jmp(NO_JUMP)];
  }

  /** Inverted, a comparison jumps when it went on, and goes on when it jumped. */
  lemma InvertRun(m: Env, s: State, k: Kind, start: nat, r: Regs)
    requires k.VJMP? && KindOk(s, k) && WellFormed(s.code) && Pending(s.code, k.jump) && start + 2 <= |s.code|
             && StartOk(s.code, start)
    ensures var out := RunAt(m, s.code, start, r);
            RunAt(m, InvertJump(s.code, k.jump), start, r) ==
              if out.Fall? then Exit(k.jump, out.r) else if out.j == k.jump then Fall(out.r) else out
  {
    hide WellFormed, CondJump, InvertJump, Takes;
    var n := |s.code|;
    var p := s.(code := s.code[..n - 2]);
    CompareCut(s, k);
    var i := s.code[n - 2];
    CompareStart(s, start);
    CondJumpRun(m, p, i, start, r);
    CondJumpRun(m, p, Inverted(i), start, r);
    DischargedRun(m, p, [], start, r);
    InvertedTakes(m, RunAt(m, p.code, start, r).r, i);
  }

  lemma CompareStart(s: State, start: nat)
    requires WellFormed(s.code) && start + 2 <= |s.code| && StartOk(s.code, start) && s.code[|s.code| - 2].Compare?
    ensures StartOk(s.code[..|s.code| - 2], start)
  {
    if start > 0 { assert OkAt(s.code, start - 1); }
  }

  lemma InvertedTakes(m: Env, r: Regs, i: Ins)
    requires i.Compare?
    ensures Takes(m, r, Inverted(i)) != Takes(m, r, i)
  {
  }

  lemma InvertBase(s0: State, s: State, d: ExpDesc, g: ExpDesc)
    requires Base(s0, s, d) && d.k.VJMP? && KindOk(s, d.k) && KindNew(s0, d.k)
    requires g == Leaving(d, true, [d.k.jump]) || g == d || g == Leaving(d, false, [d.k.jump])
    ensures var r := s.(code := InvertJump(s.code, d.k.jump));
            Base(s0, r, g) && Base(s0, s, g) && KindOk(r, d.k) && Wider(s0, s, r) && (Above(s0, s) ==> Above(s0, r))
  {
    hide Start;
    var j := d.k.jump;
    HeldParts(s, d);
    HeldPending(s, d);
    var r := s.(code := InvertJump(s.code, j));
    assert forall i :: 0 <= i < |s.code| && i != j - 1 ==> r.code[i] == s.code[i];
    assert r.code[j - 1].Compare? && s.code[j - 1].Compare?;
    forall i | 0 <= i < |r.code|
      ensures OkAt(r.code, i)
    {
      assert OkAt(s.code, i);
    }
    InvertLists(s, r, d, g);
    forall i | 0 <= i < |s0.code|
      ensures GrownAt(s0, r, i)
    {
      assert GrownAt(s0, s, i);
    }
  }

  lemma InvertLists(s: State, r: State, d: ExpDesc, g: ExpDesc)
    requires Lists(s, d) && d.k.VJMP? && s.jpc == [] && r.jpc == []
    requires forall j: nat :: Pending(s.code, j) ==> Pending(r.code, j)
    requires g == Leaving(d, true, [d.k.jump]) || g == d || g == Leaving(d, false, [d.k.jump])
    ensures Lists(r, g) && Lists(s, g) && (forall x :: x in g.t + g.f ==> x == d.k.jump || x in d.t + d.f)
  {
    var j := d.k.jump;
    HeldParts(s, d);
    assert Held(s, d) == d.t + d.f + [j];
    DistinctParts(d.t + d.f, [j]);
    assert j in [j] && forall x :: x in d.t || x in d.f ==> x in d.t + d.f;
    DistinctMore(d.t, d.f, j);
    assert Held(r, g) == Held(s, g) == if g.t == d.t then d.t + d.f + [j] else d.t + [j] + d.f;
    forall x | x in Held(r, g)
      ensures Pending(s.code, x) && Pending(r.code, x)
    {
      assert x in Held(s, d);
    }
  }

  /** The jump of a comparison is in no list, and carries nothing. */
  lemma CompareApart(s0: State, s: State, d: ExpDesc)
    requires Ready(s0, s, d) && d.k.VJMP?
    ensures Pending(s.code, d.k.jump) && |s0.code| + 2 <= |s.code| && s.code[d.k.jump - 1].Compare? && s.jpc == []
    ensures d.k.jump !in d.t && d.k.jump !in d.f && d.k.jump + 1 == |s.code| && NoTarget(s.code)
  {
    assert d.k.jump in Held(s, d);
    assert Held(s, d) == d.t + d.f + [d.k.jump];
    DistinctParts(d.t + d.f, [d.k.jump]);
    assert d.k.jump in [d.k.jump] && forall x :: x in d.t || x in d.f ==> x in d.t + d.f;
  }

  lemma ComparisonOk(m: Env, f: Meaning, s0: State, s: State, d: ExpDesc, cond: bool)
    requires Ready(s0, s, d) && Sem(m, f, s0, s, d, None) && d.k.VJMP?
    ensures var r, g := if cond then s.(code := InvertJump(s.code, d.k.jump)) else s, Leaving(d, cond, [d.k.jump]);
            Base(s0, r, g) && Sem(m, Tested(cond, false, f), s0, r, g, None) && Above(s0, r)
  {
    hide Sem, SemAt, Base, KindOk, Enters, Tested, Above, Settled, Labelled;
    var r, g := if cond then s.(code := InvertJump(s.code, d.k.jump)) else s, Leaving(d, cond, [d.k.jump]);
    InvertBase(s0, s, d, g);
    forall p: nat, q | Enters(s0, r, p, q)
      ensures SemAt(m, Tested(cond, false, f), s0, r, g, None, p, q)
    {
      ComparisonSemAt(m, f, s0, s, d, cond, p, q);
    }
    SemIs(m, Tested(cond, false, f), s0, r, g, None);
  }

  lemma ComparisonSemAt(m: Env, f: Meaning, s0: State, s: State, d: ExpDesc, cond: bool, p: nat, q: Regs)
    requires Ready(s0, s, d) && Sem(m, f, s0, s, d, None) && d.k.VJMP?
    requires Enters(s0, if cond then s.(code := InvertJump(s.code, d.k.jump)) else s, p, q)
    ensures var r, g := if cond then s.(code := InvertJump(s.code, d.k.jump)) else s, Leaving(d, cond, [d.k.jump]);
            SemAt(m, Tested(cond, false, f), s0, r, g, None, p, q)
  {
    hide *;
    var r, g := if cond then s.(code := InvertJump(s.code, d.k.jump)) else s, Leaving(d, cond, [d.k.jump]);
    ReadyParts(s0, s, d);
    CompareApart(s0, s, d);
    InvertBase(s0, s, d, d) by { assert d == d; }
    WiderSame(s0, s);
    EntersBack(s0, s, r, p, q);
    EntersAt(s0, s, p, q);
    EntryOk(s0, s, p);
    SemParts(m, f, s0, s, d, None, p, q);
    InvertRun(m, s, d.k, p, q);
    ComparisonOut(m, s, d, cond, f(q, EntryTag(s0, p, q)), RunAt(m, s.code, p, q));
    TestedIs(cond, false, f, q, EntryTag(s0, p, q));
    SameLength(s.code, d.k.jump);
    SemFrom(m, Tested(cond, false, f), s0, r, g, None, p, q);
  }

  lemma SameLength(c: seq<Ins>, j: nat)
    ensures |InvertJump(c, j)| == |c|
  {
  }

  lemma WiderSame(s0: State, s: State)
    ensures Wider(s0, s, s)
  {
  }

  lemma ComparisonOut(m: Env, s: State, d: ExpDesc, cond: bool, o: Outcome, out: Out)
    requires Lists(s, d) && d.k.VJMP? && s.jpc == [] && OutOk(m, s, d, o, out) && d.k.jump !in d.t && d.k.jump !in d.f
    requires 1 <= d.k.jump < |s.code| && s.code[d.k.jump - 1].Compare?
    ensures var r, g := if cond then s.(code := InvertJump(s.code, d.k.jump)) else s, Leaving(d, cond, [d.k.jump]);
            var q := if !cond then out else if out.Fall? then Exit(d.k.jump, out.r)
                                            else if out.j == d.k.jump then Fall(out.r) else out;
            q.r == out.r && OutOk(m, r, g, TestOf(cond, false, o), q)
  {
    HeldPending(s, d);
  }

  // `luaK_goiftrue` and `luaK_goiffalse`

  function GoneOn(f: Meaning): Meaning { (r, t) => var o := f(r, t); if o.Stays? then Stays(Bool(true), o.tag) else o }

  lemma GoesOnOk(m: Env, f: Meaning, s0: State, s: State, d: ExpDesc, cond: bool)
    requires Base(s0, s, d) && Sem(m, f, s0, s, d, None) && GoesOn(d.k, cond)
    ensures Base(s0, s, Leaving(d, cond, [])) && Sem(m, GoneOn(f), s0, s, Leaving(d, cond, []), None)
  {
    hide Run, Keeps;
    var g := Leaving(d, cond, []);
    assert g.t == d.t && g.f == d.f && Held(s, g) == Held(s, d);
    forall p: nat, q | Enters(s0, s, p, q)
      ensures SemAt(m, GoneOn(f), s0, s, g, None, p, q)
    {
      assert SemAt(m, f, s0, s, d, None, p, q);
    }
  }

  /** What the jump out of an expression makes of its outcome. */
  function LeaveOf(s: State, k: Kind, cond: bool, f: Meaning): Meaning {
    if GoesOn(k, cond) then GoneOn(f)
    else if AlwaysJumps(k, cond) then Bared(cond, f)
    else Tested(cond, !k.VJMP? && !IsNot(s, k), f)
  }

  lemma LeaveUnlessOk(m: Env, f: Meaning, s0: State, s: State, d: ExpDesc, cond: bool)
    requires Ready(s0, s, d) && Sem(m, f, s0, s, d, None) && !d.k.VLOCAL? && !d.k.VUPVAL?
    requires LeaveUnless(s, d, cond).0.consts <= m.k
    ensures var (r, l) := LeaveUnless(s, d, cond); Left(m, LeaveOf(s, d.k, cond, f), s0, s, r, Leaving(d, cond, l))
  {
    hide Base, Sem, JumpOnCond, KindOk, Above, Labelled, Settled, KindNew, Tested, GoneOn, Bared;
    ReadyParts(s0, s, d);
    if GoesOn(d.k, cond) {
      GoesOnOk(m, f, s0, s, d, cond);
    } else if AlwaysJumps(d.k, cond) {
      BareOk(m, f, s0, s, d, cond);
    } else if d.k.VJMP? {
      ComparisonOk(m, f, s0, s, d, cond);
    } else {
      JumpOnCondOk(m, f, s0, s, d, cond);
    }
  }

  /** The list of jumps on which the expression is `cond` leads to the next instruction. */
  function Closed(d: ExpDesc, cond: bool): ExpDesc {
    if cond then d.(t := []) else d.(f := [])
  }

  function HereOf(cond: bool, o: Outcome): Outcome {
    if o.Leaves? && o.cond == cond then Stays(Bool(true), o.tag) else o
  }

  function BroughtHere(cond: bool, f: Meaning): Meaning { (r, t) => HereOf(cond, f(r, t)) }

  lemma ToHereBase(s0: State, s: State, d: ExpDesc, cond: bool)
    requires Base(s0, s, d) && !d.k.VJMP?
    ensures Base(s0, PatchToHere(s, if cond then d.t else d.f), Closed(d, cond))
  {
    hide WellFormed, Start;
    var l := if cond then d.t else d.f;
    var r, g := PatchToHere(s, l), Closed(d, cond);
    HeldParts(s, d);
    HeldPending(s, d);
    assert Held(s, d) == s.jpc + d.t + d.f == s.jpc + (d.t + d.f);
    if !cond {
      DistinctSwap(s.jpc + d.t, d.f);
      assert d.f + (s.jpc + d.t) == (d.f + s.jpc) + d.t;
      DistinctRotate(s.jpc, d.f, d.t) by { assert d.f + s.jpc + d.t == d.f + (s.jpc + d.t); }
    }
    assert Held(r, g) == if cond then s.jpc + d.t + d.f else s.jpc + (d.f + d.t);
    assert forall j :: j in d.t || j in d.f ==> j in d.t + d.f;
    assert forall j :: j in g.t + g.f ==> j in d.t + d.f;
    forall i | 0 <= i < |s0.code|
      ensures GrownAt(s0, r, i)
    {
      assert GrownAt(s0, s, i);
    }
  }

  lemma ToHereOk(m: Env, f: Meaning, s0: State, s: State, d: ExpDesc, cond: bool)
    requires Base(s0, s, d) && Sem(m, f, s0, s, d, None) && d.k == VTRUE
    ensures var r := PatchToHere(s, if cond then d.t else d.f);
            Base(s0, r, Closed(d, cond)) && Sem(m, BroughtHere(cond, f), s0, r, Closed(d, cond), None)
  {
    hide Base, Run, Keeps;
    ToHereBase(s0, s, d, cond);
    BaseParts(s0, s, d);
    HeldParts(s, d);
    var r := PatchToHere(s, if cond then d.t else d.f);
    forall p: nat, q | Enters(s0, r, p, q)
      ensures SemAt(m, BroughtHere(cond, f), s0, r, Closed(d, cond), None, p, q)
    {
      assert SemAt(m, f, s0, s, d, None, p, q);
    }
  }

  /** What `luaK_goiftrue` or `luaK_goiffalse` makes of an outcome: control stays if the expression is `cond`. */
  function GoIfOf(s: State, d: ExpDesc, cond: bool, f: Meaning): Meaning {
    var (s1, d1) := DischargeVars(s, d);
    BroughtHere(cond, LeaveOf(s1, d1.k, cond, VarsOf(d.k, f)))
  }

  lemma GoIfOk(m: Env, f: Meaning, s0: State, s: State, d: ExpDesc, cond: bool)
    requires Ready(s0, s, d) && Sem(m, f, s0, s, d, None) && GoIf(s, d, cond).0.consts <= m.k
    ensures var (r, g) := GoIf(s, d, cond);
            && (if cond then g.t == [] else g.f == [])
            && Base(s0, r, g.(k := VTRUE)) && Sem(m, GoIfOf(s, d, cond, f), s0, r, g.(k := VTRUE), None)
            && Sealed(r) && Labelled(r) && Above(s0, r) && s.consts <= r.consts && r.freereg == s0.freereg
  {
    hide Base, Sem, KindOk, LeaveUnless, Sealed, Labelled;
    hide Above, Settled, KindNew, DischargeVars, LeaveOf, BroughtHere, VarsOf;
    DischargeVarsOk(m, f, s0, s, d);
    var (s1, d1) := DischargeVars(s, d);
    var (s2, l) := LeaveUnless(s1, d1, cond);
    LeaveUnlessOk(m, VarsOf(d.k, f), s0, s1, d1, cond);
    ToHereOk(m, LeaveOf(s1, d1.k, cond, VarsOf(d.k, f)), s0, s2, Leaving(d1, cond, l), cond);
    LabelOk(s0, s2);
  }

  lemma LabelOk(s0: State, s: State)
    ensures forall l :: Sealed(PatchToHere(s, l)) && Labelled(PatchToHere(s, l))
    ensures Above(s0, s) ==> forall l :: Above(s0, PatchToHere(s, l))
  {
  }

  // `codenot`

  function RemovedAt(c: seq<Ins>, l: seq<nat>, i: nat): Ins
    requires i < |c|
  {
    if i + 1 in l && Carries(c, i + 1) then Test(c[i].b, c[i].c) else c[i]
  }

  lemma RemovedStep(c: seq<Ins>, l: seq<nat>, i: nat)
    requires l != [] && i < |c|
    ensures RemovedAt(RemoveValue(c, l[0]), l[1..], i) == RemovedAt(c, l, i)
  {
    assert l == [l[0]] + l[1..];
    assert i + 1 in l <==> i + 1 == l[0] || i + 1 in l[1..];
  }

  lemma {:induction false} RemoveValuesAt(c: seq<Ins>, l: seq<nat>)
    ensures forall i :: 0 <= i < |c| ==> RemoveValues(c, l)[i] == RemovedAt(c, l, i)
    decreases |l|
  {
    hide RemoveValue, RemovedAt;
    if l == [] {
      forall i | 0 <= i < |c|
        ensures RemovedAt(c, l, i) == c[i]
      {
        NothingRemoved(c, l, i);
      }
    } else {
      RemoveValuesAt(RemoveValue(c, l[0]), l[1..]);
      forall i | 0 <= i < |c|
        ensures RemovedAt(RemoveValue(c, l[0]), l[1..], i) == RemovedAt(c, l, i)
      {
        RemovedStep(c, l, i);
      }
    }
  }

  lemma NothingRemoved(c: seq<Ins>, l: seq<nat>, i: nat)
    requires l == [] && i < |c|
    ensures RemovedAt(c, l, i) == c[i]
  {
  }

  /** Removing the values that jumps carry. */
  lemma RemoveValuesWellFormed(c: seq<Ins>, l: seq<nat>)
    requires WellFormed(c) && AllPending(c, l)
    ensures WellFormed(RemoveValues(c, l)) && forall q: nat :: Pending(c, q) <==> Pending(RemoveValues(c, l), q)
  {
    var d := RemoveValues(c, l);
    RemoveValuesAt(c, l);
    forall i | 0 <= i < |d|
      ensures OkAt(d, i)
    {
      RemovedOk(c, l, d, i);
    }
    forall q: nat
      ensures Pending(c, q) <==> Pending(d, q)
    {
      if q < |c| { assert d[q] == RemovedAt(c, l, q); }
    }
  }

  lemma RemovedOk(c: seq<Ins>, l: seq<nat>, d: seq<Ins>, i: nat)
    requires WellFormed(c) && |d| == |c| && i < |c| && forall k :: 0 <= k < |c| ==> d[k] == RemovedAt(c, l, k)
    ensures OkAt(d, i)
  {
    assert OkAt(c, i) && d[i] == RemovedAt(c, l, i);
    if i + 1 < |c| { assert d[i + 1] == RemovedAt(c, l, i + 1) && OkAt(c, i + 1); }
    if i > 0 { assert d[i - 1] == RemovedAt(c, l, i - 1); }
    if c[i].Jmp? && c[i].dest > i { assert d[c[i].dest - 1] == RemovedAt(c, l, c[i].dest - 1); }
  }

  /** It changes no run. */
  lemma RemoveValuesRun(m: Env, c: seq<Ins>, l: seq<nat>, start: nat, r: Regs)
    requires WellFormed(c) && AllPending(c, l) && StartOk(c, start)
    ensures start <= |RemoveValues(c, l)| && RunAt(m, RemoveValues(c, l), start, r) == RunAt(m, c, start, r)
  {
    hide WellFormed;
    var d := RemoveValues(c, l);
    RemoveValuesAt(c, l);
    forall i | 0 <= i < |c|
      ensures SameAt(c, d, i)
    {
      assert d[i] == RemovedAt(c, l, i);
      if i + 1 in l && Carries(c, i + 1) { RemovedControl(c, l, i); }
    }
    RunAtContinues(m, c, d, start, r);
    var out := RunAt(m, c, start, r);
    if out.Exit? {
      assert d[out.j] == RemovedAt(c, l, out.j);
      RemovedStored(c, l, d, out.j, out.r);
    } else {
      assert RunAt(m, d, start, r) == Run(m, d, |d|, out.r);
    }
  }

  lemma RemovedControl(c: seq<Ins>, l: seq<nat>, i: nat)
    requires WellFormed(c) && AllPending(c, l) && i < |c| && i + 1 in l && c[i].TestSet?
    ensures Pending(c, i + 1) && c[i].to.None?
  {
    assert Pending(c, i + 1) && OkAt(c, i);
  }

  lemma RemovedStored(c: seq<Ins>, l: seq<nat>, d: seq<Ins>, j: nat, r: Regs)
    requires WellFormed(c) && Ends(c, j) && |d| == |c| && forall k :: 0 <= k < |c| ==> d[k] == RemovedAt(c, l, k)
    ensures Stored(d, j, r) == r
  {
    if j > 0 { assert OkAt(c, j) && OkAt(c, j - 1) && d[j - 1] == RemovedAt(c, l, j - 1); }
  }

  lemma SwapLists(p: seq<nat>, t: seq<nat>, f: seq<nat>, w: seq<nat>)
    requires Distinct(p + t + f + w)
    ensures Distinct(p + f + t + w)
  {
    DistinctParts(p + t + f, w);
    assert p + t + f == p + (t + f);
    DistinctParts(p, t + f);
    DistinctParts(t, f);
    assert forall x :: x in t || x in f ==> x in t + f;
    assert forall x :: x in p || x in t || x in f ==> x in p + t + f;
    DistinctJoin(f, t);
    DistinctJoin(p, f + t);
    assert p + f + t == p + (f + t);
    DistinctJoin(p + f + t, w);
  }

  function Swapped(s: State, d: ExpDesc): State {
    s.(code := RemoveValues(RemoveValues(s.code, d.t), d.f))
  }

  predicate InLists(d: ExpDesc, j: nat) { j in d.t || j in d.f }

  function SwappedAt(c: seq<Ins>, d: ExpDesc, i: nat): Ins
    requires i < |c|
  {
    if InLists(d, i + 1) && Carries(c, i + 1) then Test(c[i].b, c[i].c) else c[i]
  }

  lemma SwappedCode(s: State, d: ExpDesc)
    requires WellFormed(s.code) && Lists(s, d)
    ensures var r := Swapped(s, d);
            && WellFormed(r.code) && |r.code| == |s.code|
               && (forall q: nat :: Pending(s.code, q) <==> Pending(r.code, q))
            && forall i :: 0 <= i < |s.code| ==> r.code[i] == SwappedAt(s.code, d, i)
  {
    hide WellFormed, RemoveValues;
    var c := RemoveValues(s.code, d.t);
    HeldPending(s, d);
    RemoveValuesWellFormed(s.code, d.t);
    RemoveValuesAt(s.code, d.t);
    RemoveValuesWellFormed(c, d.f);
    RemoveValuesAt(c, d.f);
    forall i | 0 <= i < |s.code|
      ensures RemoveValues(c, d.f)[i] == SwappedAt(s.code, d, i)
    {
      assert c[i] == RemovedAt(s.code, d.t, i) && RemoveValues(c, d.f)[i] == RemovedAt(c, d.f, i);
    }
  }

  lemma SwappedRun(m: Env, s: State, d: ExpDesc, start: nat, r: Regs)
    requires WellFormed(s.code) && Lists(s, d) && StartOk(s.code, start)
    ensures start <= |Swapped(s, d).code| && RunAt(m, Swapped(s, d).code, start, r) == RunAt(m, s.code, start, r)
  {
    hide WellFormed, RemoveValues, RunAt;
    var c := RemoveValues(s.code, d.t);
    HeldPending(s, d);
    RemoveValuesWellFormed(s.code, d.t);
    RemoveValuesRun(m, s.code, d.t, start, r);
    RemovedStart(s.code, d.t, start);
    RemoveValuesRun(m, c, d.f, start, r);
  }

  lemma RemovedStart(c: seq<Ins>, l: seq<nat>, start: nat)
    requires StartOk(c, start)
    ensures StartOk(RemoveValues(c, l), start)
  {
    var d := RemoveValues(c, l);
    RemoveValuesAt(c, l);
    if start > 0 { assert d[start - 1] == RemovedAt(c, l, start - 1); }
    if start < |c| { assert d[start] == RemovedAt(c, l, start); }
  }

  /** A LOADNIL is left as it is, and so are the targets of jumps. */
  ghost predicate SameEnd(s0: State, s: State, r: State) {
    && (Settled(s0, s) ==> Settled(s0, r)) && (Labelled(s) ==> Labelled(r)) && Wider(s0, s, r)
       && (Above(s0, s) ==> Above(s0, r))
  }

  lemma SwappedBase(s0: State, s: State, d: ExpDesc)
    requires Base(s0, s, d)
    ensures Base(s0, Swapped(s, d), ExpDesc(d.k, d.f, d.t)) && SameEnd(s0, s, Swapped(s, d))
  {
    hide WellFormed, Start, Swapped;
    var r, g := Swapped(s, d), ExpDesc(d.k, d.f, d.t);
    SwappedCode(s, d);
    SwappedOther(s, d);
    assert Held(s, d) == s.jpc + d.t + d.f + JumpOf(d.k) && Held(r, g) == s.jpc + d.f + d.t + JumpOf(d.k);
    SwapLists(s.jpc, d.t, d.f, JumpOf(d.k));
    assert forall j :: j in Held(r, g) ==> j in Held(s, d);
    assert forall j :: j in g.t + g.f ==> j in d.t + d.f;
    forall i | 0 <= i < |s0.code|
      ensures GrownAt(s0, r, i)
    {
      SwappedGrownAt(s0, s, d, i);
    }
  }

  lemma SwappedOther(s: State, d: ExpDesc)
    ensures var r := Swapped(s, d); r == s.(code := r.code)
  {
  }

  lemma SwappedGrownAt(s0: State, s: State, d: ExpDesc, i: nat)
    requires Base(s0, s, d) && i < |s0.code|
    ensures |Swapped(s, d).code| == |s.code| && GrownAt(s0, Swapped(s, d), i)
  {
    hide Swapped;
    SwappedCode(s, d);
    assert GrownAt(s0, s, i) && OkAt(s0.code, i) && Swapped(s, d).code[i] == SwappedAt(s.code, d, i);
    if InLists(d, i + 1) {
      assert i + 1 in d.t + d.f;
      if i in s0.jpc { assert Pending(s0.code, i); }
      HeldPending(s, d);
      if i + 1 == |s0.code| { assert OkAt(s0.code, i); }
    }
  }

  /** What was left through on true is left through on false, and nothing is carried. */
  function SwapOf(o: Outcome): Outcome { if o.Leaves? then Leaves(!o.cond, None) else o }

  function Swapping(f: Meaning): Meaning { (r, t) => SwapOf(f(r, t)) }

  lemma SwappingIs(f: Meaning, r: Regs, t: Option<V>)
    ensures Swapping(f)(r, t) == SwapOf(f(r, t))
  {
  }

  lemma SwappedOut(m: Env, s: State, d: ExpDesc, o: Outcome, out: Out)
    requires WellFormed(s.code) && Lists(s, d) && OutOk(m, s, d, o, out)
    ensures OutOk(m, Swapped(s, d), ExpDesc(d.k, d.f, d.t), SwapOf(o), out)
  {
    hide WellFormed, Swapped;
    SwappedCode(s, d);
    SwappedOther(s, d);
    HeldParts(s, d);
    HeldPending(s, d);
    var c, r := s.code, Swapped(s, d).code;
    if out.Exit? && 0 < out.j <= |c| { assert r[out.j - 1] == SwappedAt(c, d, out.j - 1); }
    if d.k.VRELOCABLE? && d.k.pc < |c| { assert r[d.k.pc] == SwappedAt(c, d, d.k.pc); }
  }

  /** Interchanging the lists, with the values removed, finishes a negation. */
  lemma SwapOk(m: Env, f: Meaning, s0: State, s: State, d: ExpDesc)
    requires Base(s0, s, d) && Sem(m, f, s0, s, d, None) && KindOk(s, d.k)
    ensures var r, g := Swapped(s, d), ExpDesc(d.k, d.f, d.t);
            Base(s0, r, g) && Sem(m, Swapping(f), s0, r, g, None) && KindOk(r, g.k) && SameEnd(s0, s, r)
  {
    hide Base, SemAt, KindOk, Swapped, Enters, SameEnd;
    var r, g := Swapped(s, d), ExpDesc(d.k, d.f, d.t);
    SwappedBase(s0, s, d);
    SwappedKind(s0, s, d);
    forall p: nat, q | Enters(s0, r, p, q)
      ensures SemAt(m, Swapping(f), s0, r, g, None, p, q)
    {
      SwapSemAt(m, f, s0, s, d, p, q);
    }
  }

  lemma SwappedKind(s0: State, s: State, d: ExpDesc)
    requires Base(s0, s, d) && KindOk(s, d.k)
    ensures KindOk(Swapped(s, d), d.k)
  {
    hide WellFormed, Swapped;
    SwappedCode(s, d);
    SwappedOther(s, d);
    var c, r := s.code, Swapped(s, d).code;
    forall i | 0 <= i < |r| && r[i].Jmp?
      ensures c[i] == r[i]
    {
      assert r[i] == SwappedAt(c, d, i);
    }
    if d.k.VRELOCABLE? { assert r[d.k.pc] == SwappedAt(c, d, d.k.pc); }
    if d.k.VJMP? { assert r[d.k.jump - 1] == SwappedAt(c, d, d.k.jump - 1); }
  }

  lemma SwapSemAt(m: Env, f: Meaning, s0: State, s: State, d: ExpDesc, p: nat, q: Regs)
    requires Base(s0, s, d) && Sem(m, f, s0, s, d, None) && Enters(s0, Swapped(s, d), p, q)
    ensures SemAt(m, Swapping(f), s0, Swapped(s, d), ExpDesc(d.k, d.f, d.t), None, p, q)
  {
    hide *;
    BaseParts(s0, s, d);
    SwappedBase(s0, s, d);
    SameEndParts(s0, s, Swapped(s, d));
    EntersBack(s0, s, Swapped(s, d), p, q);
    EntersAt(s0, s, p, q);
    EntryOk(s0, s, p);
    SemParts(m, f, s0, s, d, None, p, q);
    SwappedRun(m, s, d, p, q);
    SwappedOut(m, s, d, f(q, EntryTag(s0, p, q)), RunAt(m, s.code, p, q));
    SwappingIs(f, q, EntryTag(s0, p, q));
    SemFrom(m, Swapping(f), s0, Swapped(s, d), ExpDesc(d.k, d.f, d.t), None, p, q);
  }

  lemma SameEndParts(s0: State, s: State, r: State)
    requires SameEnd(s0, s, r)
    ensures Wider(s0, s, r) && (Settled(s0, s) ==> Settled(s0, r)) && (Labelled(s) ==> Labelled(r))
            && (Above(s0, s) ==> Above(s0, r))
  {
  }

  // The cases of `codenot`

  /** What is here is negated; the negation of a literal or a comparison needs no code. */
  function NotOf(k: Kind, o: Outcome): Outcome {
    if o.Leaves? then o else Stays(Bool(!Truthy(o.v)), if k.VRELOCABLE? || k.VNONRELOC? then None else o.tag)
  }

  function Negated(k: Kind, f: Meaning): Meaning { (r, t) => NotOf(k, f(r, t)) }

  lemma NegatedIs(k: Kind, f: Meaning, r: Regs, t: Option<V>)
    ensures Negated(k, f)(r, t) == NotOf(k, f(r, t))
  {
  }

  predicate LiteralNot(k: Kind, k': Kind) {
    (k' == VTRUE && (k.VNIL? || k.VFALSE?)) || (k' == VFALSE && (k.VK? || k.VKNUM? || k.VTRUE?))
  }

  lemma NotLiteralOk(m: Env, f: Meaning, s0: State, s: State, d: ExpDesc, k: Kind)
    requires Base(s0, s, d) && Sem(m, f, s0, s, d, None) && KindOk(s, d.k) && s.consts <= m.k && LiteralNot(d.k, k)
    ensures Base(s0, s, d.(k := k)) && Sem(m, Negated(d.k, f), s0, s, d.(k := k), None) && KindOk(s, k)
  {
    hide Run, Keeps, WellFormed;
    var g := d.(k := k);
    assert Held(s, g) == Held(s, d);
    forall p: nat, q | Enters(s0, s, p, q)
      ensures SemAt(m, Negated(d.k, f), s0, s, g, None, p, q)
    {
      assert SemAt(m, f, s0, s, d, None, p, q);
    }
  }

  lemma NotComparisonOk(m: Env, f: Meaning, s0: State, s: State, d: ExpDesc)
    requires Ready(s0, s, d) && Sem(m, f, s0, s, d, None) && d.k.VJMP?
    ensures var r := s.(code := InvertJump(s.code, d.k.jump));
            Base(s0, r, d) && KindOk(r, d.k) && Sem(m, Negated(d.k, f), s0, r, d, None) && Above(s0, r) && Labelled(r)
                && Settled(s0, r)
  {
    hide SemAt, Base, KindOk, Enters, Above, Labelled, Settled, InvertJump;
    var r := s.(code := InvertJump(s.code, d.k.jump));
    ReadyParts(s0, s, d);
    InvertBase(s0, s, d, d);
    CompareApart(s0, s, d);
    InvertEnd(s0, s, d.k);
    forall p: nat, q | Enters(s0, r, p, q)
      ensures SemAt(m, Negated(d.k, f), s0, r, d, None, p, q)
    {
      NotComparisonSemAt(m, f, s0, s, d, p, q);
    }
  }

  lemma InvertEnd(s0: State, s: State, k: Kind)
    requires k.VJMP? && s.jpc == [] && NoTarget(s.code) && k.jump + 1 == |s.code| && Pending(s.code, k.jump)
    ensures var r := s.(code := InvertJump(s.code, k.jump)); Labelled(r) && Settled(s0, r)
  {
  }

  lemma NotComparisonSemAt(m: Env, f: Meaning, s0: State, s: State, d: ExpDesc, p: nat, q: Regs)
    requires Ready(s0, s, d) && Sem(m, f, s0, s, d, None) && d.k.VJMP?
             && Enters(s0, s.(code := InvertJump(s.code, d.k.jump)), p, q)
    ensures SemAt(m, Negated(d.k, f), s0, s.(code := InvertJump(s.code, d.k.jump)), d, None, p, q)
  {
    hide *;
    var r := s.(code := InvertJump(s.code, d.k.jump));
    ReadyParts(s0, s, d);
    CompareApart(s0, s, d);
    InvertBase(s0, s, d, d);
    EntersBack(s0, s, r, p, q);
    EntersAt(s0, s, p, q);
    EntryOk(s0, s, p);
    SemParts(m, f, s0, s, d, None, p, q);
    InvertRun(m, s, d.k, p, q);
    NotComparisonOut(m, s, d, f(q, EntryTag(s0, p, q)), RunAt(m, s.code, p, q));
    NegatedIs(d.k, f, q, EntryTag(s0, p, q));
    SameLength(s.code, d.k.jump);
    SemFrom(m, Negated(d.k, f), s0, r, d, None, p, q);
  }

  lemma NotComparisonOut(m: Env, s: State, d: ExpDesc, o: Outcome, out: Out)
    requires Lists(s, d) && d.k.VJMP? && s.jpc == [] && OutOk(m, s, d, o, out) && d.k.jump !in d.t && d.k.jump !in d.f
    requires 1 <= d.k.jump < |s.code| && s.code[d.k.jump - 1].Compare?
    ensures var q := if out.Fall? then Exit(d.k.jump, out.r) else if out.j == d.k.jump then Fall(out.r) else out;
            q.r == out.r && OutOk(m, s.(code := InvertJump(s.code, d.k.jump)), d, NotOf(d.k, o), q)
  {
    HeldPending(s, d);
  }

  lemma EmitNotOk(m: Env, f: Meaning, s0: State, s: State, d: ExpDesc)
    requires Base(s0, s, d) && Sem(m, f, s0, s, d, None) && d.k.VNONRELOC?
    ensures var r, g := Emit(s, Not(None, d.k.reg)), d.(k := VRELOCABLE(|s.code|));
            && Base(s0, r, g) && KindOk(r, g.k) && KindNew(s0, g.k) && Sem(m, Negated(d.k, f), s0, r, g, None)
            && Labelled(r) && Settled(s0, r) && (Above(s0, s) ==> Above(s0, r))
  {
    hide Base, SemAt, Emit, Enters, Above, Labelled;
    var i, k := Not(None, d.k.reg), VRELOCABLE(|s.code|);
    EmitBase(s0, s, d, i, k);
    EmitOther(s, i);
    BaseParts(s0, s, d);
    GrownLength(s0, s);
    forall p: nat, q | Enters(s0, Emit(s, i), p, q)
      ensures SemAt(m, Negated(d.k, f), s0, Emit(s, i), d.(k := k), None, p, q)
    {
      EmitNotSemAt(m, f, s0, s, d, p, q);
    }
  }

  lemma EmitNotSemAt(m: Env, f: Meaning, s0: State, s: State, d: ExpDesc, p: nat, q: Regs)
    requires Base(s0, s, d) && Sem(m, f, s0, s, d, None) && d.k.VNONRELOC?
             && Enters(s0, Emit(s, Not(None, d.k.reg)), p, q)
    ensures SemAt(m, Negated(d.k, f), s0, Emit(s, Not(None, d.k.reg)), d.(k := VRELOCABLE(|s.code|)), None, p, q)
  {
    hide *;
    var i := Not(None, d.k.reg);
    BaseParts(s0, s, d);
    HeldParts(s, d);
    GrownLength(s0, s);
    EmitNil(s0, s, i);
    EntersBack(s0, s, Emit(s, i), p, q);
    EntersAt(s0, s, p, q);
    EntryOk(s0, s, p);
    EmitLists(s0, s, d, i);
    SemParts(m, f, s0, s, d, None, p, q);
    NotPlain(d.k.reg);
    EmitRun(m, s, i, p, q);
    EmitNotOut(m, s, d, f(q, EntryTag(s0, p, q)), RunAt(m, s.code, p, q));
    NegatedIs(d.k, f, q, EntryTag(s0, p, q));
    SemFrom(m, Negated(d.k, f), s0, Emit(s, i), d.(k := VRELOCABLE(|s.code|)), None, p, q);
  }

  lemma NotPlain(b: nat)
    ensures Plain(Not(None, b))
  {
  }

  lemma EmitNotOut(m: Env, s: State, d: ExpDesc, o: Outcome, out: Out)
    requires d.k.VNONRELOC? && Lists(s, d) && Untouched(s, Emit(s, Not(None, d.k.reg))) && OutOk(m, s, d, o, out)
    ensures var i := Not(None, d.k.reg);
            var q := if IsHere(s.jpc, out) then Fall(Effect(m, out.r, i)) else out;
            q.r == out.r && OutOk(m, Emit(s, i), d.(k := VRELOCABLE(|s.code|)), NotOf(d.k, o), q)
  {
    hide Emit, Untouched;
    var i := Not(None, d.k.reg);
    EmitOther(s, i);
    EmitJpc(s, i);
    HeldParts(s, d);
    if o.Leaves? { ExitStays(s, Emit(s, i), d, out.j, out.r); }
  }

  /** OP_NOT on the register that holds the value. */
  function NotRegister(s: State, d: ExpDesc): (State, ExpDesc) {
    var (r, e) := Discharge2AnyReg(s, d);
    var r1 := FreeExp(r, e);
    (Emit(r1, Not(None, if e.k.VNONRELOC? then e.k.reg else 0)), ExpDesc(VRELOCABLE(|r1.code|), d.t, d.f))
  }

  /** What `codenot` relies on before it exchanges the lists. */
  ghost predicate NotReady(m: Env, f: Meaning, s0: State, s: State, d: ExpDesc) {
    && Base(s0, s, d) && Sem(m, f, s0, s, d, None) && KindOk(s, d.k) && KindNew(s0, d.k) && s.freereg == s0.freereg
    && Settled(s0, s) && Labelled(s) && Above(s0, s) && !d.k.VNONRELOC?
  }

  lemma NotRegisterOk(m: Env, f: Meaning, s0: State, s: State, d: ExpDesc)
    requires Ready(s0, s, d) && Sem(m, f, s0, s, d, None) && (d.k.VRELOCABLE? || d.k.VNONRELOC?)
    requires NotRegister(s, d).0.consts <= m.k
    ensures var (q, g) := NotRegister(s, d); NotReady(m, Negated(d.k, f), s0, q, g) && s.consts <= q.consts
  {
    hide Base, Sem, KindOk, Discharge2AnyReg, Emit, Settled, Labelled, Above, FreeExp, KindNew, AnyRegOf;
    var (q, g) := Discharge2AnyReg(s, d);
    var q1 := FreeExp(q, g);
    EmitOther(q1, Not(None, if g.k.VNONRELOC? then g.k.reg else 0));
    FreeExpIs(q, g);
    AnyRegOk(m, f, s0, s, d);
    SameCodeOk(m, AnyRegOf(d.k, f), s0, q, q1, g, None);
    EmitNotOk(m, AnyRegOf(d.k, f), s0, q1, g);
    DropNegated(m, f, s0, d.k, g.k, NotRegister(s, d).0, NotRegister(s, d).1);
  }

  lemma DropNegated(m: Env, f: Meaning, s0: State, k: Kind, k': Kind, s: State, d: ExpDesc)
    requires Sem(m, Negated(k', AnyRegOf(k, f)), s0, s, d, None) && k'.VNONRELOC? && (k.VRELOCABLE? || k.VNONRELOC?)
    ensures Sem(m, Negated(k, f), s0, s, d, None)
  {
    hide Run, Keeps, KindValue;
    forall p: nat, q | Enters(s0, s, p, q)
      ensures SemAt(m, Negated(k, f), s0, s, d, None, p, q)
    {
      assert SemAt(m, Negated(k', AnyRegOf(k, f)), s0, s, d, None, p, q);
      assert Negated(k', AnyRegOf(k, f))(q, EntryTag(s0, p, q)) == Negated(k, f)(q, EntryTag(s0, p, q)) by {
        NegatedIs(k, f, q, EntryTag(s0, p, q));
        NegatedIs(k', AnyRegOf(k, f), q, EntryTag(s0, p, q));
        DroppedIs(f, q, EntryTag(s0, p, q));
      }
    }
  }

  lemma NotValueOk(m: Env, f: Meaning, s0: State, s: State, d: ExpDesc)
    requires Ready(s0, s, d) && Sem(m, f, s0, s, d, None) && !d.k.VLOCAL? && !d.k.VUPVAL?
             && NotValue(s, d).0.consts <= m.k
    ensures var (r, k) := NotValue(s, d); NotReady(m, Negated(d.k, f), s0, r, d.(k := k)) && s.consts <= r.consts
  {
    hide Base, Sem, KindOk, Discharge2AnyReg, Emit, Settled, Labelled, Above, FreeExp, InvertJump, Negated;
    ReadyParts(s0, s, d);
    match d.k
    case VNIL => NotLiteralOk(m, f, s0, s, d, VTRUE);
    case VFALSE => NotLiteralOk(m, f, s0, s, d, VTRUE);
    case VK(_) => NotLiteralOk(m, f, s0, s, d, VFALSE);
    case VKNUM(_) => NotLiteralOk(m, f, s0, s, d, VFALSE);
    case VTRUE => NotLiteralOk(m, f, s0, s, d, VFALSE);
    case VJMP(j) => NotComparisonOk(m, f, s0, s, d);
    case _ => NotRegisterOk(m, f, s0, s, d); AnyRegLists(s, d);
  }

  lemma AnyRegLists(s: State, d: ExpDesc)
    requires d.k.VRELOCABLE? || d.k.VNONRELOC?
    ensures NotRegister(s, d) == (NotValue(s, d).0, d.(k := NotValue(s, d).1))
  {
    hide Discharge2AnyReg, FreeExp, Emit;
  }

  /** What `codenot` makes of an outcome. */
  function CodeNotOf(s: State, d: ExpDesc, f: Meaning): Meaning {
    Swapping(Negated(DischargeVars(s, d).1.k, VarsOf(d.k, f)))
  }

  /** `codenot` negates the value, and interchanges what leaving through a list means. */
  lemma CodeNotOk(m: Env, f: Meaning, s0: State, s: State, d: ExpDesc)
    requires Ready(s0, s, d) && Sem(m, f, s0, s, d, None) && CodeNot(s, d).0.consts <= m.k
    ensures var (r, g) := CodeNot(s, d);
            Ready(s0, r, g) && Sem(m, CodeNotOf(s, d, f), s0, r, g, None) && s.consts <= r.consts
  {
    hide Base, Sem, KindOk, KindNew, NotValue, RemoveValues, DischargeVars;
    hide Settled, Labelled, Above, SameEnd, Swapping, Negated, VarsOf;
    DischargeVarsOk(m, f, s0, s, d);
    var (s1, d1) := DischargeVars(s, d);
    var (s2, k) := NotValue(s1, d1);
    NotValueOk(m, VarsOf(d.k, f), s0, s1, d1);
    SwapOk(m, Negated(d1.k, VarsOf(d.k, f)), s0, s2, d1.(k := k));
    SameEndParts(s0, s2, Swapped(s2, d1.(k := k)));
  }
}
