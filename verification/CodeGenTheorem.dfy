/** What the code of expressions and conditions does when it runs, and when that is what the language says. */
module CodeGenTheorem {
  import opened Common
  import opened JumpCode
  import opened CodeGen
  import opened CodeGenRun
  import opened CodeGenSem
  import opened CodeGenCond
  import opened CodeGenExp
  import opened CodeGenMeaning
  import opened CodeGenWays

  /** Control reaches the next instruction, and only `reg` changed among the registers below `n`. */
  ghost predicate Reaches(s: State, n: nat, reg: nat, r: Regs, out: Out) {
    IsHere(s.jpc, out) && forall a :: 0 <= a < n && a != reg ==> Get(out.r, a) == Get(r, a)
  }

  lemma ReachesFrom(m: Env, f: Meaning, s0: State, s: State, reg: nat, y: Option<nat>, p: nat, r: Regs, v: V)
    requires Sem(m, f, s0, s, ExpDesc(VNONRELOC(reg), [], []), y) && (y == None || y == Some(reg))
             && Enters(s0, s, p, r)
    requires ValueOf(f(r, EntryTag(s0, p, r))) == v
    ensures p <= |s.code| && (var out := RunAt(m, s.code, p, r);
                              Reaches(s, s0.freereg, reg, r, out) && Get(out.r, reg) == v)
  {
    hide RunAt;
    SemParts(m, f, s0, s, ExpDesc(VNONRELOC(reg), [], []), y, p, r);
  }

  /**
    The code for `e` and `luaK_exp2nextreg`, from wherever control comes to it, leaves in the next register the value
    of the outcome of `e`, and all other registers as they were.
   */
  lemma ValueTheorem(m: Env, e: Expr, s: State, p: nat, r: Regs)
    requires Start(s) && Scoped(e, s.nactvar)
    requires var (s1, d1) := Compile(s, e);
             var s2 := Exp2NextReg(s1, d1).0;
             s2.consts <= m.k && Enters(s, s2, p, r)
    ensures var (s1, d1) := Compile(s, e);
            var (s2, d2) := Exp2NextReg(s1, d1);
            && d2 == ExpDesc(VNONRELOC(s.freereg), [], []) && p <= |s2.code|
            && var out := RunAt(m, s2.code, p, r);
               Reaches(s2, s.freereg, s.freereg, r, out)
                   && Get(out.r, s.freereg) == ValueOf(Act(m, s, e, r, EntryTag(s, p, r)))
  {
    hide *;
    var (s1, d1) := Compile(s, e);
    var (s2, d2) := Exp2NextReg(s1, d1);
    NextGrows(s1, d1);
    CompileOk(m, e, s);
    NextRegOk(m, Meant(m, s, e), s, s1, d1);
    var t := EntryTag(s, p, r);
    FinalIs(Meant(m, s, e), r, t);
    MeantIs(m, s, e, r, t);
    FinalValue(Meant(m, s, e), r, t);
    ReachesFrom(m, Final(Meant(m, s, e)), s, s2, s.freereg, None, p, r, ValueOf(Act(m, s, e, r, t)));
  }

  lemma FinalValue(f: Meaning, r: Regs, t: Option<V>)
    ensures ValueOf(Final(f)(r, t)) == ValueOf(f(r, t))
  {
  }

  lemma NextGrows(s: State, d: ExpDesc)
    ensures s.consts <= Exp2NextReg(s, d).0.consts
  {
    hide Exp2Reg, DischargeVars;
    var (s1, d1) := DischargeVars(s, d);
    DischargeGrows(s, d);
    FreeExpIs(s1, d1);
    Exp2RegGrows(Reserve(FreeExp(s1, d1)), d1, FreeExp(s1, d1).freereg);
  }

  /** `luaK_storevar` for a local variable. */
  function StoreLocal(s: State, d: ExpDesc, reg: nat): State { Exp2Reg(FreeExp(s, d), d, reg).0 }

  lemma Exp2RegVars(s: State, d: ExpDesc, reg: nat)
    ensures var (s1, d1) := DischargeVars(s, d); Exp2Reg(s, d, reg) == Exp2Reg(s1, d1, reg)
  {
    hide PatchList, LoadTo, LoadBools, NeedValue;
  }

  /** Loading into a given register does not depend on which one is free. */
  lemma Exp2RegFree(s: State, d: ExpDesc, reg: nat, n: nat)
    ensures Exp2Reg(s.(freereg := n), d, reg) == (Exp2Reg(s, d, reg).0.(freereg := n), ExpDesc(VNONRELOC(reg), [], []))
    ensures Exp2Reg(s, d, reg).1 == ExpDesc(VNONRELOC(reg), [], [])
  {
    hide PatchList, NeedValue;
    var q := s.(freereg := n);
    DischargeFree(s, d, reg, n);
    var (s1, d1) := Discharge2Reg(s, d, reg);
    LoadBoolsFree(s1, d1.k, reg, n);
  }

  lemma DischargeFree(s: State, d: ExpDesc, reg: nat, n: nat)
    ensures Discharge2Reg(s.(freereg := n), d, reg) ==
              (Discharge2Reg(s, d, reg).0.(freereg := n), Discharge2Reg(s, d, reg).1)
  {
    hide PatchList;
  }

  lemma LoadBoolsFree(s: State, k: Kind, reg: nat, n: nat)
    ensures LoadBools(s.(freereg := n), k, reg) == LoadBools(s, k, reg).(freereg := n)
  {
    hide PatchList;
  }

  /** An assignment to a local variable, which the expression may mention, gives it the value for the old registers. */
  lemma AssignTheorem(m: Env, e: Expr, s: State, reg: nat, p: nat, r: Regs)
    requires Start(s) && Scoped(e, s.nactvar) && reg < s.nactvar
    requires var (s1, d1) := Compile(s, e);
             var s2 := StoreLocal(s1, d1, reg);
             s2.consts <= m.k && Enters(s, s2, p, r)
    ensures var (s1, d1) := Compile(s, e);
            var s2 := StoreLocal(s1, d1, reg);
            && s2.freereg == s.freereg && p <= |s2.code|
            && var out := RunAt(m, s2.code, p, r);
               Reaches(s2, s.freereg, reg, r, out) && Get(out.r, reg) == ValueOf(Act(m, s, e, r, EntryTag(s, p, r)))
  {
    hide *;
    var (s1, d1) := Compile(s, e);
    var q := FreeExp(s1, d1);
    StoreIs(s1, d1, reg);
    FreeExpIs(s1, d1);
    Exp2RegGrows(q, d1, reg);
    CompileOk(m, e, s);
    var s2 := StoreLocal(s1, d1, reg);
    var f := StoreReady(m, Meant(m, s, e), s, s1, d1, reg);
    var t := EntryTag(s, p, r);
    MeantIs(m, s, e, r, t);
    ReachesFrom(m, f, s, s2, reg, Some(reg), p, r, ValueOf(Act(m, s, e, r, t)));
  }

  lemma StoreIs(s: State, d: ExpDesc, reg: nat)
    ensures StoreLocal(s, d, reg) == Exp2Reg(FreeExp(s, d), d, reg).0
  {
  }

  lemma StoreReady(m: Env, f: Meaning, s0: State, s: State, d: ExpDesc, reg: nat) returns (g: Meaning)
    requires Ready(s0, s, d) && Sem(m, f, s0, s, d, None) && StoreLocal(s, d, reg).consts <= m.k
    ensures Sem(m, g, s0, StoreLocal(s, d, reg), ExpDesc(VNONRELOC(reg), [], []), Some(reg))
            && StoreLocal(s, d, reg).freereg == s0.freereg
    ensures forall r, t :: ValueOf(g(r, t)) == ValueOf(f(r, t))
  {
    hide *;
    ReadyParts(s0, s, d);
    FreedRegister(s0, s, d);
    StoreIs(s, d, reg);
    FreedIs(s, d);
    Exp2RegFree(s, d, reg, s0.freereg);
    Exp2RegVars(s, d, reg);
    DischargeVarsOk(m, f, s0, s, d);
    var (s1, d1) := DischargeVars(s, d);
    ReadyParts(s0, s1, d1);
    Exp2RegOk(m, VarsOf(d.k, f), s0, s1, d1, Some(reg), reg);
    g := Lands(LoadedOf(d1.k, reg, VarsOf(d.k, f)));
    SameCodeSem(m, g, s0, Exp2Reg(s1, d1, reg).0, ExpDesc(VNONRELOC(reg), [], []), Some(reg), s0.freereg);
    forall r, t
      ensures ValueOf(g(r, t)) == ValueOf(f(r, t))
    {
      StoredValue(d.k, d1.k, reg, f, r, t);
    }
  }

  lemma StoredValue(k: Kind, k': Kind, reg: nat, f: Meaning, r: Regs, t: Option<V>)
    ensures ValueOf(Lands(LoadedOf(k', reg, VarsOf(k, f)))(r, t)) == ValueOf(f(r, t))
  {
    var g := VarsOf(k, f);
    LandsIs(LoadedOf(k', reg, g), r, t);
    DroppedIs(g, r, t);
    VarsPoint(k, f, r, t);
  }

  lemma FreedRegister(s0: State, s: State, d: ExpDesc)
    requires s.freereg == s0.freereg && (d.k.VNONRELOC? ==> d.k.reg < s.nactvar)
    ensures FreeExp(s, d).freereg == s0.freereg
  {
  }

  lemma FreedIs(s: State, d: ExpDesc)
    ensures FreeExp(s, d) == s.(freereg := FreeExp(s, d).freereg)
  {
  }

  lemma SameCodeSem(m: Env, f: Meaning, s0: State, s: State, d: ExpDesc, y: Option<nat>, n: nat)
    requires Sem(m, f, s0, s, d, y)
    ensures Sem(m, f, s0, s.(freereg := n), d, y)
  {
    hide Run;
    forall p: nat, q | Enters(s0, s.(freereg := n), p, q)
      ensures SemAt(m, f, s0, s.(freereg := n), d, y, p, q)
    {
      assert SemAt(m, f, s0, s, d, y, p, q);
    }
  }

  // Conditions

  /** A nil at the end of a condition is taken for `false`. */
  function Falsely(f: Meaning): Meaning {
    (r, t) => if f(r, t).Stays? then Stays(Bool(false), f(r, t).tag) else f(r, t)
  }

  lemma FalselyIs(f: Meaning, r: Regs, t: Option<V>)
    ensures Falsely(f)(r, t) == if f(r, t).Stays? then Stays(Bool(false), f(r, t).tag) else f(r, t)
  {
  }

  lemma NilIsFalse(m: Env, f: Meaning, s0: State, s: State, d: ExpDesc)
    requires Ready(s0, s, d) && Sem(m, f, s0, s, d, None) && d.k.VNIL?
    ensures Ready(s0, s, d.(k := VFALSE)) && Sem(m, Falsely(f), s0, s, d.(k := VFALSE), None)
  {
    hide Run, WellFormed;
    var g := d.(k := VFALSE);
    assert Held(s, g) == Held(s, d);
    forall p: nat, r | Enters(s0, s, p, r)
      ensures SemAt(m, Falsely(f), s0, s, g, None, p, r)
    {
      assert SemAt(m, f, s0, s, d, None, p, r);
    }
  }

  /** Control goes on exactly when the condition is true, and otherwise leaves through the list of exits. */
  ghost predicate Branches(s: State, exits: seq<nat>, taken: bool, out: Out) {
    && (IsHere(s.jpc, out) <==> taken)
    && (!taken ==> out.Exit? && out.j in exits && Pending(s.code, out.j))
  }

  lemma BranchesFrom(m: Env, f: Meaning, s0: State, s: State, d: ExpDesc, p: nat, r: Regs, taken: bool)
    requires Sem(m, f, s0, s, d.(k := VTRUE), None) && d.t == [] && Lists(s, d.(k := VTRUE)) && Enters(s0, s, p, r)
    requires f(r, EntryTag(s0, p, r)).Stays? <==> taken
    ensures p <= |s.code|
    ensures var out := RunAt(m, s.code, p, r); Branches(s, d.f, taken, out) && Keeps(s0.freereg, None, r, out.r)
  {
    hide RunAt;
    SemParts(m, f, s0, s, d.(k := VTRUE), None, p, r);
    HeldPending(s, d.(k := VTRUE));
    HeldParts(s, d.(k := VTRUE));
  }

  /** Whether control goes on after `luaK_goiftrue`. */
  lemma GoesOnTrue(s: State, d: ExpDesc, o: Outcome)
    requires o.Stays? ==> Tells(ShapeOf(s, d.k), o.v)
    ensures GoIfTo(s, d, true, o).Stays? <==> TruthOf(o)
  {
    hide DischargeVars, ShapeOf;
    SameLiterals(s, d);
  }

  /**
    The code for a condition changes no register in use, and branches as the outcome says; its exits are distinct and
    wait.
   */
  lemma ConditionTheorem(m: Env, e: Expr, s: State, p: nat, r: Regs)
    requires Start(s) && Scoped(e, s.nactvar) && Condition(s, e).0.consts <= m.k && Enters(s, Condition(s, e).0, p, r)
    ensures var (s1, exits) := Condition(s, e);
            && p <= |s1.code| && s1.freereg == s.freereg && Distinct(s1.jpc + exits)
               && AllPending(s1.code, s1.jpc + exits)
            && var out := RunAt(m, s1.code, p, r);
               Branches(s1, exits, TruthOf(Act(m, s, e, r, EntryTag(s, p, r))), out) && Keeps(s.freereg, None, r, out.r)
  {
    hide *;
    var (s0, d0) := Compile(s, e);
    var d1 := if d0.k.VNIL? then d0.(k := VFALSE) else d0;
    var (s1, d2) := GoIf(s0, d1, true);
    ConditionIs(s, e);
    GoIfGrows(s0, d1, true);
    CompileOk(m, e, s);
    var f: Meaning := if d0.k.VNIL? then Falsely(Meant(m, s, e)) else Meant(m, s, e);
    if d0.k.VNIL? { NilIsFalse(m, Meant(m, s, e), s, s0, d0); }
    GoIfOk(m, f, s, s0, d1, true);
    BaseParts(s, s1, d2.(k := VTRUE));
    ConditionTruth(m, s, e, p, r);
    BranchesFrom(m, GoIfOf(s0, d1, true, f), s, s1, d2, p, r, TruthOf(Act(m, s, e, r, EntryTag(s, p, r))));
    ExitLists(s1, d2);
  }

  lemma ConditionTruth(m: Env, s: State, e: Expr, p: nat, r: Regs)
    ensures var (s0, d0) := Compile(s, e);
            var d1 := if d0.k.VNIL? then d0.(k := VFALSE) else d0;
            var f: Meaning := if d0.k.VNIL? then Falsely(Meant(m, s, e)) else Meant(m, s, e);
            var t := EntryTag(s, p, r);
            GoIfOf(s0, d1, true, f)(r, t).Stays? <==> TruthOf(Act(m, s, e, r, t))
  {
    hide *;
    var (s0, d0) := Compile(s, e);
    var d1 := if d0.k.VNIL? then d0.(k := VFALSE) else d0;
    var f: Meaning := if d0.k.VNIL? then Falsely(Meant(m, s, e)) else Meant(m, s, e);
    var t := EntryTag(s, p, r);
    GoIfPoint(s0, d1, true, f, r, t);
    MeantIs(m, s, e, r, t);
    ShapeIs(s, e);
    ShapeTells(m, s, e, r, t);
    if d0.k.VNIL? {
      FalselyIs(Meant(m, s, e), r, t);
      FalseTells(s0, d0, Act(m, s, e, r, t));
    }
    GoesOnTrue(s0, d1, f(r, t));
  }

  lemma FalseTells(s: State, d: ExpDesc, o: Outcome)
    requires d.k.VNIL? && (o.Stays? ==> Tells(ShapeOf(s, d.k), o.v))
    ensures var q := if o.Stays? then Stays(Bool(false), o.tag) else o;
            (q.Stays? ==> Tells(ShapeOf(s, VFALSE), q.v)) && TruthOf(q) == TruthOf(o)
  {
  }

  lemma ConditionIs(s: State, e: Expr)
    ensures var (s0, d0) := Compile(s, e);
            var (s1, d2) := GoIf(s0, if d0.k.VNIL? then d0.(k := VFALSE) else d0, true);
            Condition(s, e) == (s1, d2.f)
  {
    hide Compile, GoIf;
  }

  lemma ExitLists(s: State, d: ExpDesc)
    requires Lists(s, d.(k := VTRUE)) && d.t == []
    ensures Distinct(s.jpc + d.f) && AllPending(s.code, s.jpc + d.f)
  {
    assert Held(s, d.(k := VTRUE)) == s.jpc + d.f;
  }

  // Where that is what the language says

  /** Where no jump carries a value that is not its own, the code has the value of the expression. */
  lemma ActIsEval(m: Env, s: State, e: Expr, r: Regs, t: Option<V>)
    requires ComparesRight(s, e, t.Some?)
    ensures Exact(e, t.Some?) ==> ValueOf(Act(m, s, e, r, t)) == Eval(m, r, e)
    ensures TruthOf(Act(m, s, e, r, t)) == Truthy(Eval(m, r, e))
  {
    hide ComparesRight, Ways, Act, Eval;
    var w := WaysSound(m, s, e, r, t);
    ValueFits(Act(m, s, e, r, t), w, Eval(m, r, e));
    TruthFits(Act(m, s, e, r, t), w, Eval(m, r, e));
  }

  /** No left operand of `and` is the literal `false`, and none of `or` is `true`; `not nil` counts as a literal. */
  predicate NoStops(e: Expr) {
    match e
    case Neg(a) => NoStops(a)
    case And(a, b) => !ShapeFor(a).SFalse? && NoStops(a) && NoStops(b)
    case Or(a, b) => !ShapeFor(a).STrue? && NoStops(a) && NoStops(b)
    case Cmp(_, a, b) => NoStops(a) && NoStops(b)
    case _ => true
  }

  lemma {:induction false} NoStopsExact(e: Expr, t: bool)
    requires NoStops(e)
    ensures Exact(e, t)
    decreases e, 1
  {
    match e
    case Neg(a) =>
    case And(a, b) => JoinIs(a, b); JoinExact(a, b, true, t);
    case Or(a, b) => JoinIs(a, b); JoinExact(a, b, false, t);
    case _ =>
  }

  lemma {:induction false} JoinExact(a: Expr, b: Expr, cond: bool, t: bool)
    requires NoStops(Join(cond, a, b))
    ensures Exact(Join(cond, a, b), t)
    decreases Join(cond, a, b), 0
  {
    JoinSmaller(a, b, cond);
    NoStopsExact(a, t);
    NoStopsExact(b, false);
    NoStopsExact(b, true);
    JoinWays(a, b, cond, t);
    SecondExact(ShapeFor(b), LeaveWays(cond, ShapeFor(a), Ways(a, t)), Ways(b, false), Ways(b, true)) by {
      forall w | w in Ways(a, t)
        ensures !(LeaveWay(ShapeFor(a), cond, w).Out? && LeaveWay(ShapeFor(a), cond, w).carried.Stale?)
      {
      }
    }
  }

  predicate NoStale(a: set<Way>) { forall w :: w in a ==> !(w.Out? && w.carried.Stale?) }

  lemma SecondExact(sh: Shape, l: set<Way>, bare: set<Way>, tagged: set<Way>)
    requires NoStale(l) && NoStale(bare) && NoStale(tagged)
    ensures NoStale(Second(sh, l, bare, tagged))
  {
  }

  lemma {:induction false} NoStopsCompares(s: State, e: Expr, t: bool)
    requires NoStops(e)
    ensures ComparesRight(s, e, t)
    decreases e
  {
    hide GoIf, CodeNot, Exp2RK, DischargeVars, Ways, LeaveWays, AfterFirst, Exact;
    match e
    case Neg(a) => NoStopsCompares(s, a, t);
    case And(a, b) =>
      NoStopsCompares(s, a, t);
      forall u: bool
        ensures ComparesRight(GoIf(Compile(s, a).0, Compile(s, a).1, true).0, b, u)
      {
        NoStopsCompares(GoIf(Compile(s, a).0, Compile(s, a).1, true).0, b, u);
      }
    case Or(a, b) =>
      NoStopsCompares(s, a, t);
      forall u: bool
        ensures ComparesRight(GoIf(Compile(s, a).0, Compile(s, a).1, false).0, b, u)
      {
        NoStopsCompares(GoIf(Compile(s, a).0, Compile(s, a).1, false).0, b, u);
      }
    case Cmp(_, a, b) =>
      NoStopsCompares(s, a, t);
      NoStopsExact(a, t);
      forall u: bool
        ensures ComparesRight(Exp2RK(Compile(s, a).0, Compile(s, a).1).0, b, u) && Exact(b, u)
      {
        NoStopsCompares(Exp2RK(Compile(s, a).0, Compile(s, a).1).0, b, u);
        NoStopsExact(b, u);
      }
    case _ =>
  }

  predicate NoLiterals(e: Expr) {
    match e
    case Lit(_) => false
    case Str(_) => false
    case Neg(a) => NoLiterals(a)
    case And(a, b) => NoLiterals(a) && NoLiterals(b)
    case Or(a, b) => NoLiterals(a) && NoLiterals(b)
    case Cmp(_, a, b) => NoLiterals(a) && NoLiterals(b)
    case _ => true
  }

  predicate Computed(sh: Shape) { !sh.SNil? && !sh.STrue? && !sh.SFalse? && !sh.SConst? }

  lemma {:induction false} NoLiteralsStop(e: Expr)
    requires NoLiterals(e)
    ensures NoStops(e) && Computed(ShapeFor(e))
  {
    match e
    case Neg(a) => NoLiteralsStop(a);
    case And(a, b) => NoLiteralsStop(a); NoLiteralsStop(b);
    case Or(a, b) => NoLiteralsStop(a); NoLiteralsStop(b);
    case Cmp(_, a, b) => NoLiteralsStop(a); NoLiteralsStop(b);
    case _ =>
  }

  /** Without literals, or where none of them stops an `and` or `or`, the register gets the value of the expression. */
  lemma ValueWithoutStops(m: Env, e: Expr, s: State, p: nat, r: Regs)
    requires Start(s) && Scoped(e, s.nactvar) && (NoStops(e) || NoLiterals(e))
    requires var (s1, d1) := Compile(s, e);
             var s2 := Exp2NextReg(s1, d1).0;
             s2.consts <= m.k && Enters(s, s2, p, r)
    ensures var (s1, d1) := Compile(s, e);
            var s2 := Exp2NextReg(s1, d1).0;
            && p <= |s2.code|
            && var out := RunAt(m, s2.code, p, r);
               Reaches(s2, s.freereg, s.freereg, r, out) && Get(out.r, s.freereg) == Eval(m, r, e)
  {
    hide *;
    if NoLiterals(e) { NoLiteralsStop(e); }
    var t := EntryTag(s, p, r);
    NoStopsExact(e, t.Some?);
    NoStopsCompares(s, e, t.Some?);
    ActIsEval(m, s, e, r, t);
    ValueTheorem(m, e, s, p, r);
  }

  predicate NoComparisons(e: Expr) {
    match e
    case Neg(a) => NoComparisons(a)
    case And(a, b) => NoComparisons(a) && NoComparisons(b)
    case Or(a, b) => NoComparisons(a) && NoComparisons(b)
    case Cmp(_, _, _) => false
    case _ => true
  }

  lemma {:induction false} NoComparisonsRight(s: State, e: Expr, t: bool)
    requires NoComparisons(e)
    ensures ComparesRight(s, e, t)
    decreases e
  {
    hide GoIf, CodeNot, Exp2RK, DischargeVars, Ways, LeaveWays, AfterFirst, Exact;
    match e
    case Neg(a) => NoComparisonsRight(s, a, t);
    case And(a, b) =>
      NoComparisonsRight(s, a, t);
      forall u: bool
        ensures ComparesRight(GoIf(Compile(s, a).0, Compile(s, a).1, true).0, b, u)
      {
        NoComparisonsRight(GoIf(Compile(s, a).0, Compile(s, a).1, true).0, b, u);
      }
    case Or(a, b) =>
      NoComparisonsRight(s, a, t);
      forall u: bool
        ensures ComparesRight(GoIf(Compile(s, a).0, Compile(s, a).1, false).0, b, u)
      {
        NoComparisonsRight(GoIf(Compile(s, a).0, Compile(s, a).1, false).0, b, u);
      }
    case _ =>
  }

  /** Without comparisons, literals included, a condition branches on the truth of the expression. */
  lemma ConditionWithoutComparisons(m: Env, e: Expr, s: State, p: nat, r: Regs)
    requires Start(s) && Scoped(e, s.nactvar) && Condition(s, e).0.consts <= m.k && Enters(s, Condition(s, e).0, p, r)
    requires NoComparisons(e) || NoStops(e)
    ensures var (s1, exits) := Condition(s, e);
            p <= |s1.code| && Branches(s1, exits, Truthy(Eval(m, r, e)), RunAt(m, s1.code, p, r))
  {
    hide *;
    var t := EntryTag(s, p, r);
    if NoComparisons(e) { NoComparisonsRight(s, e, t.Some?); } else { NoStopsCompares(s, e, t.Some?); }
    ActIsEval(m, s, e, r, t);
    ConditionTheorem(m, e, s, p, r);
  }
}
