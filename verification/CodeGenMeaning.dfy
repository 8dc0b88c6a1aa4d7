/** What compiled expressions do: every run of their code ends as a function of the expression says. */
module CodeGenMeaning {
  import opened Common
  import opened JumpCode
  import opened CodeGen
  import opened CodeGenRun
  import opened CodeGenSem
  import opened CodeGenCond
  import opened CodeGenExp
  import opened CodeGenSeq

  // Outcomes of expressions

  /** Every local is in a register of an active variable. */
  predicate Scoped(e: Expr, n: nat) {
    match e
    case Local(r) => r < n
    case Neg(a) => Scoped(a, n)
    case And(a, b) => Scoped(a, n) && Scoped(b, n)
    case Or(a, b) => Scoped(a, n) && Scoped(b, n)
    case Cmp(_, a, b) => Scoped(a, n) && Scoped(b, n)
    case _ => true
  }

  /** An upvalue is loaded, which discharges the jumps to here. */
  function VarsTo(k: Kind, o: Outcome): Outcome { if k.VUPVAL? then Drop(o) else o }

  /** The jump out of an expression that is not `cond`. */
  function LeaveTo(s: State, k: Kind, cond: bool, o: Outcome): Outcome {
    if GoesOn(k, cond) then (if o.Stays? then Stays(Bool(true), o.tag) else o)
    else if AlwaysJumps(k, cond) then BareOf(cond, o)
    else TestOf(cond, !k.VJMP? && !IsNot(s, k), o)
  }

  /** `luaK_goiftrue` and `luaK_goiffalse`. */
  function GoIfTo(s: State, d: ExpDesc, cond: bool, o: Outcome): Outcome {
    var (s1, d1) := DischargeVars(s, d);
    HereOf(cond, LeaveTo(s1, d1.k, cond, VarsTo(d.k, o)))
  }

  /** `codenot`. */
  function NotTo(s: State, d: ExpDesc, o: Outcome): Outcome {
    SwapOf(NotOf(DischargeVars(s, d).1.k, VarsTo(d.k, o)))
  }

  /** `luaK_exp2RK`. */
  function RkTo(s: State, d: ExpDesc, o: Outcome): Outcome {
    if Still(s, d) && o.Stays? then o else Stays(ValueOf(o), None)
  }

  /**
    What the code for `e`, generated from the state `s`, does when control comes to it through a jump that carries
    the tag. A jump to a literal that always jumps is merged with the jump of the literal, and keeps what it carries.
   */
  function Act(m: Env, s: State, e: Expr, r: Regs, tag: Option<V>): Outcome
    decreases e
  {
    match e
    case Lit(v) => Stays(v, tag)
    case Str(n) => Stays(Other(n), tag)
    case Local(a) => Stays(Get(r, a), tag)
    case Up(u) => Stays(Upval(m, u), tag)
    case Neg(a) => NotTo(Compile(s, a).0, Compile(s, a).1, Act(m, s, a, r, tag))
    case And(a, b) =>
      var (s1, d1) := Compile(s, a);
      var s2, o := GoIf(s1, d1, true).0, GoIfTo(s1, d1, true, Act(m, s, a, r, tag));
      if o.Leaves? then o else VarsTo(Compile(s2, b).1.k, Act(m, s2, b, r, o.tag))
    case Or(a, b) =>
      var (s1, d1) := Compile(s, a);
      var s2, o := GoIf(s1, d1, false).0, GoIfTo(s1, d1, false, Act(m, s, a, r, tag));
      if o.Leaves? then o else VarsTo(Compile(s2, b).1.k, Act(m, s2, b, r, o.tag))
    case Cmp(op, a, b) =>
      var (s1, d1) := Compile(s, a);
      var s2, x := Exp2RK(s1, d1).0, RkTo(s1, d1, Act(m, s, a, r, tag));
      var (s3, d3) := Compile(s2, b);
      var y := RkTo(s3, d3, Act(m, s2, b, r, x.tag));
      Stays(Bool(Compares(m, op, ValueOf(x), ValueOf(y))), None)
  }

  function Meant(m: Env, s: State, e: Expr): Meaning { (r, t) => Act(m, s, e, r, t) }

  lemma MeantIs(m: Env, s: State, e: Expr, r: Regs, t: Option<V>)
    ensures Meant(m, s, e)(r, t) == Act(m, s, e, r, t)
  {
  }

  function Join(cond: bool, a: Expr, b: Expr): Expr { if cond then And(a, b) else Or(a, b) }

  lemma ActJoin(m: Env, s: State, a: Expr, b: Expr, cond: bool, r: Regs, t: Option<V>)
    ensures var (s1, d1) := Compile(s, a);
            var s2, o := GoIf(s1, d1, cond).0, GoIfTo(s1, d1, cond, Act(m, s, a, r, t));
            Act(m, s, Join(cond, a, b), r, t) ==
                  if o.Leaves? then o else VarsTo(Compile(s2, b).1.k, Act(m, s2, b, r, o.tag))
  {
    hide GoIf, GoIfTo, VarsTo, NotTo, RkTo, Exp2RK, Compares, Compile;
  }

  lemma ActCmp(m: Env, s: State, op: Comparison, a: Expr, b: Expr, r: Regs, t: Option<V>)
    ensures var (s1, d1) := Compile(s, a);
            var s2, x := Exp2RK(s1, d1).0, RkTo(s1, d1, Act(m, s, a, r, t));
            var (s3, d3) := Compile(s2, b);
            var y := RkTo(s3, d3, Act(m, s2, b, r, x.tag));
            Act(m, s, Cmp(op, a, b), r, t) == Stays(Bool(Compares(m, op, ValueOf(x), ValueOf(y))), None)
  {
    hide Exp2RK, RkTo, Compares, GoIf, GoIfTo, VarsTo, NotTo, Compile;
  }

  /** The outcome depends on the registers of the variables alone. */
  lemma {:induction false} ActAgrees(m: Env, s: State, e: Expr, n: nat, r: Regs, q: Regs, t: Option<V>)
    requires Scoped(e, n) && forall a :: 0 <= a < n ==> Get(q, a) == Get(r, a)
    ensures Act(m, s, e, q, t) == Act(m, s, e, r, t)
    decreases e
  {
    hide GoIf, GoIfTo, VarsTo, NotTo, RkTo, Exp2RK, Compares, Compile;
    match e
    case Neg(a) => ActAgrees(m, s, a, n, r, q, t);
    case And(a, b) =>
      var (s1, d1) := Compile(s, a);
      ActAgrees(m, s, a, n, r, q, t);
      ActAgrees(m, GoIf(s1, d1, true).0, b, n, r, q, GoIfTo(s1, d1, true, Act(m, s, a, r, t)).tag);
    case Or(a, b) =>
      var (s1, d1) := Compile(s, a);
      ActAgrees(m, s, a, n, r, q, t);
      ActAgrees(m, GoIf(s1, d1, false).0, b, n, r, q, GoIfTo(s1, d1, false, Act(m, s, a, r, t)).tag);
    case Cmp(_, a, b) =>
      var (s1, d1) := Compile(s, a);
      ActAgrees(m, s, a, n, r, q, t);
      ActAgrees(m, Exp2RK(s1, d1).0, b, n, r, q, RkTo(s1, d1, Act(m, s, a, r, t)).tag);
    case _ =>
  }

  /** Two ways to write the same meaning. */
  lemma SemSame(m: Env, f: Meaning, g: Meaning, s0: State, s: State, d: ExpDesc, x: Option<nat>)
    requires Sem(m, f, s0, s, d, x) && forall r, t :: f(r, t) == g(r, t)
    ensures Sem(m, g, s0, s, d, x)
  {
    hide Run, Keeps, OutOk;
    forall p: nat, r | Enters(s0, s, p, r)
      ensures SemAt(m, g, s0, s, d, x, p, r)
    {
      assert SemAt(m, f, s0, s, d, x, p, r);
    }
  }

  lemma VarsPoint(k: Kind, f: Meaning, r: Regs, t: Option<V>)
    ensures VarsOf(k, f)(r, t) == VarsTo(k, f(r, t))
  {
  }

  lemma GoIfPoint(s: State, d: ExpDesc, cond: bool, f: Meaning, r: Regs, t: Option<V>)
    ensures GoIfOf(s, d, cond, f)(r, t) == GoIfTo(s, d, cond, f(r, t))
  {
    hide DischargeVars, GoesOn, AlwaysJumps, IsNot;
    VarsPoint(d.k, f, r, t);
  }

  lemma NotPoint(s: State, d: ExpDesc, f: Meaning, r: Regs, t: Option<V>)
    ensures CodeNotOf(s, d, f)(r, t) == NotTo(s, d, f(r, t))
  {
    hide DischargeVars;
    VarsPoint(d.k, f, r, t);
  }

  lemma RkPoint(s: State, d: ExpDesc, f: Meaning, r: Regs, t: Option<V>)
    ensures RkSem(s, d, f)(r, t) == RkTo(s, d, f(r, t))
  {
    hide Still;
  }

  // Atoms

  lemma AtomBase(s: State, k: Kind)
    requires Start(s) && !k.VJMP?
    ensures Base(s, s, ExpDesc(k, [], []))
  {
    assert Held(s, ExpDesc(k, [], [])) == s.jpc;
  }

  lemma AtomOk(m: Env, f: Meaning, s: State, r: State, k: Kind)
    requires Start(s) && KindOk(r, k) && !k.VJMP? && !k.VRELOCABLE? && !k.VNONRELOC?
             && (r == s || r == s.(consts := r.consts))
    requires s.consts <= r.consts && forall q, t :: f(q, t) == Stays(KindValue(m, r.code, k, q), t)
    ensures Ready(s, r, ExpDesc(k, [], [])) && Sem(m, f, s, r, ExpDesc(k, [], []), None)
  {
    hide KindValue, WellFormed, SemAt, Enters;
    AtomBase(s, k);
    BaseSameCode(s, s, r, ExpDesc(k, [], []));
    forall p: nat, q | Enters(s, r, p, q)
      ensures SemAt(m, f, s, r, ExpDesc(k, [], []), None, p, q)
    {
      AtomAt(m, f, s, r, k, p, q);
    }
  }

  lemma AtomAt(m: Env, f: Meaning, s: State, r: State, k: Kind, p: nat, q: Regs)
    requires Start(s) && !k.VJMP? && !k.VRELOCABLE? && !k.VNONRELOC? && (r == s || r == s.(consts := r.consts))
    requires Enters(s, r, p, q) && f(q, EntryTag(s, p, q)) == Stays(KindValue(m, r.code, k, q), EntryTag(s, p, q))
    ensures SemAt(m, f, s, r, ExpDesc(k, [], []), None, p, q)
  {
    hide KindValue, WellFormed, Start, RunAt;
    AtomRun(m, s, p, q);
  }

  /** Control is here at once. */
  lemma AtomRun(m: Env, s: State, p: nat, q: Regs)
    requires Start(s) && (p == |s.code| || p in s.jpc)
    ensures p <= |s.code|
    ensures var out := RunAt(m, s.code, p, q);
            out.r == q && IsHere(s.jpc, out) && TagOf(s.code, out) == EntryTag(s, p, q)
  {
    if p == |s.code| {
      if p > 0 { assert OkAt(s.code, p - 1); }
    } else {
      assert Pending(s.code, p);
      if p > 0 { assert OkAt(s.code, p - 1); }
    }
  }

  lemma LitOk(m: Env, s: State, v: V)
    requires Start(s)
    ensures var (r, d) := Compile(s, Lit(v)); Ready(s, r, d) && Sem(m, Meant(m, s, Lit(v)), s, r, d, None)
  {
    hide Ready, Sem, Start;
    AtomOk(m, Meant(m, s, Lit(v)), s, s, LitKind(v));
  }

  lemma LocalOk(m: Env, s: State, a: nat)
    requires Start(s) && Scoped(Local(a), s.nactvar)
    ensures var (r, d) := Compile(s, Local(a)); Ready(s, r, d) && Sem(m, Meant(m, s, Local(a)), s, r, d, None)
  {
    hide Ready, Sem, Start;
    AtomOk(m, Meant(m, s, Local(a)), s, s, VLOCAL(a));
  }

  lemma UpOk(m: Env, s: State, u: nat)
    requires Start(s)
    ensures var (r, d) := Compile(s, Up(u)); Ready(s, r, d) && Sem(m, Meant(m, s, Up(u)), s, r, d, None)
  {
    hide Ready, Sem, Start;
    AtomOk(m, Meant(m, s, Up(u)), s, s, VUPVAL(u));
  }

  lemma StrOk(m: Env, s: State, n: int)
    requires Start(s) && AddK(s, Other(n)).consts <= m.k
    ensures var (r, d) := Compile(s, Str(n)); Ready(s, r, d) && Sem(m, Meant(m, s, Str(n)), s, r, d, None)
  {
    hide Ready, Sem, Start;
    var r, k := AddK(s, Other(n)), KOf(s, Other(n));
    assert r.consts[k] == Other(n) && m.k[k] == r.consts[k];
    AtomOk(m, Meant(m, s, Str(n)), s, r, VK(k));
  }

  // `and` and `or`

  lemma EmptyRun(m: Env, c: seq<Ins>, p: nat, q: Regs)
    requires c == [] && p <= |c|
    ensures RunAt(m, c, p, q) == Fall(q)
  {
  }

  lemma EmptyJpc(s: State)
    requires s.code == [] && AllPending(s.code, s.jpc)
    ensures s.jpc == []
  {
    if s.jpc != [] { var x := Pending(s.code, s.jpc[0]); }
  }

  /** After a label no LOADNIL is widened. */
  lemma SealedEntry(m: Env, s0: State, s: State, r: State, p: nat, q: Regs)
    requires Sealed(s) && Enters(s0, r, p, q) && |s0.code| <= |s.code| && p <= |s.code| && s.nactvar == s0.nactvar
    requires AllPending(s0.code, s0.jpc)
    ensures EntryRegs(s, r, RunAt(m, s.code, p, q).r)
  {
    hide RunAt;
    if |s.code| == 0 {
      EmptyRun(m, s.code, p, q);
      EmptyJpc(s0);
    }
  }

  lemma SealedUnwidened(s: State, r: State)
    requires Start(s) && Grown(s, r) && Sealed(s)
    ensures Unwidened(s, r)
  {
    var n := |s.code|;
    if 0 < n {
      assert GrownAt(s, r, n - 1);
      if n - 1 in s.jpc { assert Pending(s.code, n - 1); }
    }
  }

  lemma KeepsFewer(n: nat, n': nat, r: Regs, r': Regs)
    requires Keeps(n', None, r, r') && n <= n'
    ensures Keeps(n, None, r, r')
  {
  }

  lemma KeepsBelow(n: nat, k: nat, r: Regs, r': Regs)
    requires Keeps(n, None, r, r') && k <= n
    ensures forall a :: 0 <= a < k ==> Get(r', a) == Get(r, a)
  {
  }

  /** One run of the code of both operands. */
  lemma JoinSemAt(m: Env, a: Expr, b: Expr, cond: bool, s0: State, s: State, g: ExpDesc, r: State, d: ExpDesc,
                  p: nat, q: Regs)
    requires var (s1, d1) := Compile(s0, a);
             var f1 := GoIfOf(s1, d1, cond, Meant(m, s0, a));
             var f2 := VarsOf(Compile(s, b).1.k, Meant(m, s, b));
             s == GoIf(s1, d1, cond).0 && Chained(m, f1, f2, s0, s, g, r, d, p, q)
    requires Scoped(b, s0.nactvar) && s.freereg == s0.freereg >= s0.nactvar
    ensures SemAt(m, Meant(m, s0, Join(cond, a, b)), s0, r, Both(d, g), None, p, q)
  {
    hide *;
    var (s1, d1) := Compile(s0, a);
    var f1, f2 := GoIfOf(s1, d1, cond, Meant(m, s0, a)), VarsOf(Compile(s, b).1.k, Meant(m, s, b));
    ChainedParts(m, f1, f2, s0, s, g, r, d, p, q);
    var here, t := RunAt(m, s.code, p, q), EntryTag(s0, p, q);
    KeepsBelow(s0.freereg, s0.nactvar, q, here.r);
    JoinAct(m, a, b, cond, s0, s0.nactvar, here.r, q, t);
    MeantIs(m, s0, Join(cond, a, b), q, t);
    if f1(q, t).Stays? { KeepsTransitive(s0.freereg, None, None, q, here.r, RunAt(m, r.code, p, q).r); }
    SemFrom(m, Meant(m, s0, Join(cond, a, b)), s0, r, Both(d, g), None, p, q);
  }

  /** The outcome of the whole by those of the operands; the first changes no register of a variable. */
  lemma JoinAct(m: Env, a: Expr, b: Expr, cond: bool, s0: State, n: nat, h: Regs, q: Regs, t: Option<V>)
    requires Scoped(b, n) && forall x :: 0 <= x < n ==> Get(h, x) == Get(q, x)
    ensures var (s1, d1) := Compile(s0, a);
            var s := GoIf(s1, d1, cond).0;
            var o := GoIfOf(s1, d1, cond, Meant(m, s0, a))(q, t);
            Act(m, s0, Join(cond, a, b), q, t) ==
                  if o.Leaves? then o else VarsOf(Compile(s, b).1.k, Meant(m, s, b))(h, o.tag)
  {
    hide *;
    var (s1, d1) := Compile(s0, a);
    var s := GoIf(s1, d1, cond).0;
    GoIfPoint(s1, d1, cond, Meant(m, s0, a), q, t);
    MeantIs(m, s0, a, q, t);
    ActJoin(m, s0, a, b, cond, q, t);
    var o := GoIfOf(s1, d1, cond, Meant(m, s0, a))(q, t);
    ActAgrees(m, s, b, n, q, h, o.tag);
    VarsPoint(Compile(s, b).1.k, Meant(m, s, b), h, o.tag);
    MeantIs(m, s, b, h, o.tag);
  }

  lemma ChainedParts(m: Env, f: Meaning, g: Meaning, s0: State, s: State, x: ExpDesc, r: State, d: ExpDesc,
                     p: nat, q: Regs)
    requires Chained(m, f, g, s0, s, x, r, d, p, q)
    ensures p <= |s.code| && p <= |r.code|
    ensures var here, out, o := RunAt(m, s.code, p, q), RunAt(m, r.code, p, q), f(q, EntryTag(s0, p, q));
            && Keeps(s0.freereg, None, q, here.r) && OutOk(m, s, x, o, here)
            && if o.Stays? then Keeps(s.freereg, None, here.r, out.r) && OutOk(m, r, Both(d, x), g(here.r, o.tag), out)
               else out == here && OutOk(m, r, Both(d, x), o, out)
  {
  }

  /** The second operand follows the first, and its value is that of the whole. */
  lemma JoinOk(m: Env, a: Expr, b: Expr, cond: bool, s0: State, s: State, g: ExpDesc, r: State, d: ExpDesc)
    requires var (s1, d1) := Compile(s0, a);
             && s == GoIf(s1, d1, cond).0 && Base(s0, s, g) && g.k == VTRUE && Sealed(s) && Labelled(s) && Above(s0, s)
             && Sem(m, GoIfOf(s1, d1, cond, Meant(m, s0, a)), s0, s, g, None)
    requires s.freereg == s0.freereg && Scoped(b, s0.nactvar)
    requires Ready(s, r, d) && Sem(m, VarsOf(Compile(s, b).1.k, Meant(m, s, b)), s, r, d, None)
    ensures Ready(s0, r, Both(d, g)) && Sem(m, Meant(m, s0, Join(cond, a, b)), s0, r, Both(d, g), None)
  {
    hide *;
    BaseParts(s0, s, g);
    ReadyParts(s, r, d);
    BaseParts(s, r, d);
    SealedUnwidened(s, r);
    FollowsFrom(s0, s, g, r, d);
    BothBase(s0, s, g, r, d);
    BothKind(d, g);
    GrownLength(s0, s);
    AboveTwice(s0, s, r);
    SettledAfter(s0, s, r);
    ReadyFrom(s0, r, Both(d, g));
    forall p: nat, q | Enters(s0, r, p, q)
      ensures SemAt(m, Meant(m, s0, Join(cond, a, b)), s0, r, Both(d, g), None, p, q)
    {
      JoinRuns(m, a, b, cond, s0, s, g, r, d, p, q);
    }
    SemIs(m, Meant(m, s0, Join(cond, a, b)), s0, r, Both(d, g), None);
  }

  lemma JoinRuns(m: Env, a: Expr, b: Expr, cond: bool, s0: State, s: State, g: ExpDesc, r: State, d: ExpDesc,
                 p: nat, q: Regs)
    requires var (s1, d1) := Compile(s0, a);
             s == GoIf(s1, d1, cond).0 && Sem(m, GoIfOf(s1, d1, cond, Meant(m, s0, a)), s0, s, g, None)
    requires Follows(s0, s, g, r, d) && Sealed(s) && s.freereg == s0.freereg && Scoped(b, s0.nactvar)
             && Enters(s0, r, p, q)
    requires Sem(m, VarsOf(Compile(s, b).1.k, Meant(m, s, b)), s, r, d, None)
    ensures SemAt(m, Meant(m, s0, Join(cond, a, b)), s0, r, Both(d, g), None, p, q)
  {
    hide *;
    var (s1, d1) := Compile(s0, a);
    FollowsParts(s0, s, g, r, d);
    FollowsBase(s0, s, g, r, d);
    BaseParts(s0, s, g);
    EntersAt(s0, r, p, q);
    EntryOk(s0, s, p);
    SealedEntry(m, s0, s, r, p, q);
    ChainAt(m, GoIfOf(s1, d1, cond, Meant(m, s0, a)), VarsOf(Compile(s, b).1.k, Meant(m, s, b)), s0, s, g, r, d, p, q);
    JoinSemAt(m, a, b, cond, s0, s, g, r, d, p, q);
  }

  lemma FollowsBase(s0: State, s: State, g: ExpDesc, r: State, d: ExpDesc)
    requires Follows(s0, s, g, r, d)
    ensures Base(s0, s, g) && Base(s, r, d)
  {
  }

  lemma SettledAfter(s0: State, s: State, r: State)
    requires Sealed(s) && Settled(s, r)
    ensures Settled(s0, r)
  {
  }

  lemma ReadyFrom(s0: State, s: State, d: ExpDesc)
    requires Base(s0, s, d) && KindOk(s, d.k) && KindNew(s0, d.k) && s.freereg == s0.freereg && Settled(s0, s)
             && Labelled(s) && Above(s0, s)
    requires d.k.VNONRELOC? ==> d.k.reg < s.nactvar
    ensures Ready(s0, s, d)
  {
  }

  lemma FollowsFrom(s0: State, s: State, g: ExpDesc, r: State, d: ExpDesc)
    requires Base(s0, s, g) && (g.k.VTRUE? || g.k.VNONRELOC? || g.k.VK?) && Base(s, r, d) && KindNew(s, d.k)
             && Unwidened(s, r)
    ensures Follows(s0, s, g, r, d)
  {
  }

  lemma BothKind(d: ExpDesc, g: ExpDesc)
    ensures Both(d, g).k == d.k
  {
  }

  // A LOADNIL between two operands

  /** The LOADNIL at the end of `s` as it is in `r`. */
  function Widen(s: State, r: State): State {
    var n := |s.code|;
    if 0 < n <= |r.code| && s.code[n - 1].LoadNil? then s.(code := s.code[n - 1 := r.code[n - 1]]) else s
  }

  lemma {:induction false} PutNilsAt(r: Regs, a: nat, b: nat, x: nat)
    ensures Get(PutNils(r, a, b), x) == if a <= x <= b then Nil else Get(r, x)
    decreases b
  {
    if a <= b && b > 0 { PutNilsAt(r[b := Nil], a, b - 1, x); }
  }

  lemma WidenIs(s: State, r: State)
    requires Start(s) && Grown(s, r)
    ensures var w, n := Widen(s, r), |s.code|;
            && w == s.(code := w.code) && |w.code| == n && Unwidened(w, r)
            && (n > 0 ==> w.code[..n - 1] == s.code[..n - 1])
            && if n > 0 && s.code[n - 1].LoadNil? then Widened(s.code[n - 1], w.code[n - 1]) else w == s
    ensures Sealed(s) ==> Widen(s, r) == s
    ensures Sealed(Widen(s, r)) <==> Sealed(s)
  {
    var n := |s.code|;
    if 0 < n {
      assert GrownAt(s, r, n - 1);
      if n - 1 in s.jpc { assert Pending(s.code, n - 1); }
      if Sealed(s) { assert Widen(s, r).code == s.code; }
    }
  }

  lemma WidenWellFormed(s: State, r: State)
    requires Start(s) && Grown(s, r)
    ensures var w := Widen(s, r);
            WellFormed(w.code) && (forall j: nat :: Pending(s.code, j) <==> Pending(w.code, j)) && Labelled(w)
                && Start(w)
  {
    WidenIs(s, r);
    var w, n := Widen(s, r), |s.code|;
    forall i | 0 <= i < n
      ensures i < n - 1 ==> w.code[i] == s.code[i]
    {
      if i < n - 1 { assert w.code[..n - 1][i] == s.code[..n - 1][i]; }
    }
    forall i | 0 <= i < n
      ensures OkAt(w.code, i)
    {
      assert OkAt(s.code, i);
    }
  }

  lemma WidenGrown(s0: State, s: State, r: State)
    requires Start(s) && Grown(s0, s) && Grown(s, r) && Inherits(s0, s)
    ensures Grown(s0, Widen(s, r))
  {
    WidenIs(s, r);
    var w, n := Widen(s, r), |s.code|;
    forall i | 0 <= i < |s0.code|
      ensures GrownAt(s0, w, i)
    {
      assert GrownAt(s0, s, i);
      if i < n - 1 { assert w.code[..n - 1][i] == s.code[..n - 1][i]; }
    }
  }

  lemma WidenFrom(s: State, r: State)
    requires Start(s) && Grown(s, r)
    ensures Grown(Widen(s, r), r)
  {
    hide Start;
    WidenIs(s, r);
    var w, n := Widen(s, r), |s.code|;
    forall i | 0 <= i < n
      ensures GrownAt(w, r, i)
    {
      assert GrownAt(s, r, i);
      if i < n - 1 { assert w.code[..n - 1][i] == s.code[..n - 1][i]; }
      if i + 1 < n { CarriesWidened(s, r, i + 1); }
    }
  }

  lemma CarriesWidened(s: State, r: State, j: nat)
    requires Start(s) && Grown(s, r)
    ensures Carries(Widen(s, r).code, j) <==> Carries(s.code, j)
  {
    hide Start;
    WidenIs(s, r);
    var w, n := Widen(s, r), |s.code|;
    if 0 < j < n { assert w.code[..n - 1][j - 1] == s.code[..n - 1][j - 1]; }
  }

  lemma WidenBase(s0: State, s: State, d: ExpDesc, r: State, e: ExpDesc)
    requires InPlace(s0, s, d) && Base(s, r, e) && Above(s, r)
    ensures var w := Widen(s, r); InPlace(s0, w, d) && Base(w, r, e) && Unwidened(w, r) && Above(w, r)
  {
    hide WellFormed, GrownAt, Widen;
    var w := Widen(s, r);
    BaseParts(s0, s, d);
    BaseParts(s, r, e);
    WidenIs(s, r);
    WidenWellFormed(s, r);
    WidenGrown(s0, s, r);
    WidenFrom(s, r);
    GrownWiderBack(s0, s, r);
    assert Held(w, d) == Held(s, d);
    forall j | j in Held(w, d)
      ensures Pending(w.code, j)
    {
      assert Pending(s.code, j);
    }
  }

  /** A LOADNIL of `s0` is widened above the registers in use, for the first operand or the second. */
  lemma GrownWiderBack(s0: State, s: State, r: State)
    requires Start(s) && Grown(s0, s) && Grown(s, r) && Above(s0, s) && Above(s, r) && s0.freereg <= s.freereg
    ensures Above(s0, Widen(s, r)) && Above(Widen(s, r), r)
  {
    WidenIs(s, r);
    var w, n, k := Widen(s, r), |s.code|, |s0.code|;
    if 0 < k {
      assert GrownAt(s0, s, k - 1);
      if k - 1 < n - 1 { assert w.code[..n - 1][k - 1] == s.code[..n - 1][k - 1]; }
    }
  }

  /** The same with and without widening. */
  lemma WidenEnters(s: State, r: State, p: nat, q: Regs)
    requires Start(s) && Grown(s, r)
    ensures Enters(Widen(s, r), r, p, q) <==> Enters(s, r, p, q)
    ensures p == |s.code| || p in s.jpc ==> EntryTag(Widen(s, r), p, q) == EntryTag(s, p, q)
  {
    WidenIs(s, r);
    CarriesWidened(s, r, p);
    var w, n := Widen(s, r), |s.code|;
    if p in s.jpc {
      assert Pending(s.code, p);
      if 0 < p { assert w.code[..n - 1][p - 1] == s.code[..n - 1][p - 1]; }
    }
  }

  lemma WidenSecond(m: Env, g: Meaning, s: State, r: State, e: ExpDesc)
    requires Start(s) && Grown(s, r) && Sem(m, g, s, r, e, None)
    ensures Sem(m, g, Widen(s, r), r, e, None)
  {
    hide RunAt, OutOk, Keeps, Enters, EntryTag, Widen;
    WidenIs(s, r);
    forall p: nat, q | Enters(Widen(s, r), r, p, q)
      ensures SemAt(m, g, Widen(s, r), r, e, None, p, q)
    {
      WidenEnters(s, r, p, q);
      EntersAt(s, r, p, q);
      assert SemAt(m, g, s, r, e, None, p, q);
    }
  }

  /** Code that ends with a LOADNIL, without it. */
  lemma NilCut(c: seq<Ins>)
    requires WellFormed(c) && NoTarget(c) && |c| > 0 && c[|c| - 1].LoadNil?
    ensures WellFormed(c[..|c| - 1])
  {
    var p := c[..|c| - 1];
    forall i | 0 <= i < |p|
      ensures OkAt(p, i)
    {
      assert OkAt(c, i);
      if c[i].Jmp? && c[i].dest != NO_JUMP { assert c[i].dest < |c|; }
    }
  }

  lemma NilCutStart(c: seq<Ins>, start: nat)
    requires WellFormed(c) && |c| > 0 && c[|c| - 1].LoadNil? && StartOk(c, start) && start < |c|
    ensures StartOk(c[..|c| - 1], start)
  {
    if start > 0 { assert OkAt(c, start - 1); }
  }

  /** Runs through a LOADNIL at the end, and through a wider one. */
  lemma NilRun(m: Env, c: seq<Ins>, w: seq<Ins>, start: nat, q: Regs)
    requires WellFormed(c) && NoTarget(c) && |c| > 0 && |w| == |c| && c[..|c| - 1] == w[..|c| - 1]
             && Widened(c[|c| - 1], w[|c| - 1])
    requires StartOk(c, start) && start < |c|
    ensures var n := |c| - 1;
            var x, y := RunAt(m, c, start, q), RunAt(m, w, start, q);
            && (x.Exit? ==> y == x)
            && (x.Fall? ==> y.Fall? && (forall a :: c[n].a <= a <= w[n].b ==> Get(y.r, a) == Nil)
                            && forall a: nat :: a <= c[n].b || c[n].b == w[n].b ==> Get(y.r, a) == Get(x.r, a))
  {
    var n := |c| - 1;
    var p := c[..n];
    NilCut(c);
    NilCutStart(c, start);
    assert c == p + [c[n]] && w == p + [w[n]];
    RunLast(m, p, c[n], start, q);
    RunLast(m, p, w[n], start, q);
    var out := RunAt(m, p, start, q);
    forall a: nat
      ensures Get(PutNils(out.r, c[n].a, c[n].b), a) == (if c[n].a <= a <= c[n].b then Nil else Get(out.r, a))
      ensures Get(PutNils(out.r, c[n].a, w[n].b), a) == (if c[n].a <= a <= w[n].b then Nil else Get(out.r, a))
    {
      PutNilsAt(out.r, c[n].a, c[n].b, a);
      PutNilsAt(out.r, c[n].a, w[n].b, a);
    }
  }

  /** Where the first operand ends with a LOADNIL, widened or not, its registers are nil. */
  ghost predicate NilAfter(m: Env, f: Meaning, s0: State, w: State, d: ExpDesc, r: State, p: nat, q: Regs) {
    SemAt(m, f, s0, w, d, None, p, q) && p <= |w.code| && EntryRegs(w, r, RunAt(m, w.code, p, q).r)
  }

  lemma WidenAt(m: Env, f: Meaning, s0: State, s: State, d: ExpDesc, r: State, e: ExpDesc, p: nat, q: Regs)
    requires InPlace(s0, s, d) && Sem(m, f, s0, s, d, None) && Base(s, r, e) && Above(s, r)
             && Enters(s0, Widen(s, r), p, q)
    ensures NilAfter(m, f, s0, Widen(s, r), d, r, p, q)
  {
    hide WellFormed, GrownAt, Widen, Run, Sem, InPlace, Base, SemAt, Enters, EntryRegs, NilAfter, RunAt, Start;
    var w := Widen(s, r);
    InPlaceParts(s0, s, d);
    BaseParts(s0, s, d);
    BaseParts(s, r, e);
    WidenIs(s, r);
    WidenBack(s0, s, r, p, q);
    EntersAt(s0, s, p, q);
    EntryOk(s0, s, p);
    SemParts(m, f, s0, s, d, None, p, q);
    if Sealed(s) {
      SemFrom(m, f, s0, s, d, None, p, q);
      SealedNil(m, f, s0, s, d, r, p, q);
    } else if |s.code| == |s0.code| {
      WidenStill(m, f, s0, s, d, r, e, p, q);
    } else {
      WidenRun(m, f, s0, s, d, r, e, p, q);
    }
  }

  lemma InPlaceParts(s0: State, s: State, d: ExpDesc)
    requires InPlace(s0, s, d)
    ensures Base(s0, s, d) && d.t == [] && d.f == [] && s.nactvar == s0.nactvar && Labelled(s) && Above(s0, s)
            && Inherits(s0, s)
    ensures d.k.VNONRELOC? || (d.k.VK? && d.k.k <= MAXINDEXRK)
    ensures s0.freereg <= s.freereg && Start(s0) && s0.nactvar <= s0.freereg && (d.k.VNONRELOC? ==> d.k.reg < s.freereg)
    ensures FreeExp(s, d).freereg == s0.freereg
  {
  }

  lemma WidenBack(s0: State, s: State, r: State, p: nat, q: Regs)
    requires Start(s) && Grown(s, r) && Grown(s0, s) && Enters(s0, Widen(s, r), p, q)
    ensures Enters(s0, s, p, q)
  {
    WidenIs(s, r);
    var w, n, k := Widen(s, r), |s.code|, |s0.code|;
    if 0 < k < n { assert w.code[..n - 1][k - 1] == s.code[..n - 1][k - 1]; }
    EntersBack(s0, s, w, p, q);
  }

  lemma SealedNil(m: Env, f: Meaning, s0: State, s: State, d: ExpDesc, r: State, p: nat, q: Regs)
    requires Sealed(s) && Enters(s0, s, p, q) && |s0.code| <= |s.code| && s.nactvar == s0.nactvar
             && SemAt(m, f, s0, s, d, None, p, q)
    requires AllPending(s0.code, s0.jpc)
    ensures NilAfter(m, f, s0, s, d, r, p, q)
  {
    hide RunAt, OutOk, Keeps;
    if |s.code| == 0 {
      EmptyRun(m, s.code, p, q);
      EmptyJpc(s0);
    }
  }

  /** The first operand emitted no code. */
  lemma WidenStill(m: Env, f: Meaning, s0: State, s: State, d: ExpDesc, r: State, e: ExpDesc, p: nat, q: Regs)
    requires InPlace(s0, s, d) && Sem(m, f, s0, s, d, None) && Base(s, r, e) && !Sealed(s) && |s.code| == |s0.code|
    requires Enters(s0, Widen(s, r), p, q) && Enters(s0, s, p, q)
    ensures NilAfter(m, f, s0, Widen(s, r), d, r, p, q)
  {
    hide WellFormed, GrownAt, Widen, Run, Base, Sem, InPlace;
    var w, n := Widen(s, r), |s.code|;
    InPlaceParts(s0, s, d);
    BaseParts(s0, s, d);
    BaseParts(s, r, e);
    WidenIs(s, r);
    NoElements(s0.jpc) by { UnsealedEmpty(s0); }
    EntryOk(s0, s, p);
    WidenStart(s0, s, r);
    EndRun(m, s.code, q);
    EndRun(m, w.code, q);
    SemParts(m, f, s0, s, d, None, p, q);
  }

  lemma UnsealedEmpty(s: State)
    requires Labelled(s) && !Sealed(s)
    ensures s.jpc == []
  {
  }

  lemma WidenStart(s0: State, s: State, r: State)
    requires Start(s) && Grown(s, r) && !Sealed(s)
    ensures StartOk(Widen(s, r).code, |s.code|) && StartOk(s.code, |s.code|)
  {
    WidenIs(s, r);
  }

  lemma WidenRun(m: Env, f: Meaning, s0: State, s: State, d: ExpDesc, r: State, e: ExpDesc, p: nat, q: Regs)
    requires InPlace(s0, s, d) && Sem(m, f, s0, s, d, None) && Base(s, r, e) && Above(s, r) && !Sealed(s)
             && |s.code| > |s0.code|
    requires Enters(s0, s, p, q)
    ensures NilAfter(m, f, s0, Widen(s, r), d, r, p, q)
  {
    hide WellFormed, GrownAt, Widen, Run, Base, Sem, InPlace, RunAt, Enters;
    var w, n := Widen(s, r), |s.code|;
    InPlaceParts(s0, s, d);
    BaseParts(s0, s, d);
    BaseParts(s, r, e);
    WidenIs(s, r);
    EntersAt(s0, s, p, q);
    EntryOk(s0, s, p);
    NilRun(m, s.code, w.code, p, q);
    SemParts(m, f, s0, s, d, None, p, q);
  }

  lemma WidenOk(m: Env, f: Meaning, s0: State, s: State, d: ExpDesc, r: State, e: ExpDesc)
    requires InPlace(s0, s, d) && Sem(m, f, s0, s, d, None) && Base(s, r, e) && Above(s, r)
    ensures Sem(m, f, s0, Widen(s, r), d, None)
  {
    hide InPlace, Base, Above, Widen, Enters, EntryRegs, RunAt, SemAt;
    forall p: nat, q | Enters(s0, Widen(s, r), p, q)
      ensures SemAt(m, f, s0, Widen(s, r), d, None, p, q)
    {
      WidenAt(m, f, s0, s, d, r, e, p, q);
    }
  }

  // Comparisons

  /** Here the two operands hold the two values. */
  ghost predicate PairAt(m: Env, s0: State, r: State, x: Kind, y: Kind, v: V, w: V, p: nat, q: Regs) {
    p <= |r.code| && (var out := RunAt(m, r.code, p, q);
                      && Keeps(s0.freereg, None, q, out.r) && IsHere(r.jpc, out)
                      && Operand(m, out.r, RkOf(x)) == v && Operand(m, out.r, RkOf(y)) == w)
  }

  /** The value of an operand in place. */
  lemma InPlaceHere(m: Env, s: State, d: ExpDesc, o: Outcome, out: Out)
    requires OutOk(m, s, d, o, out) && d.t == [] && d.f == [] && (d.k.VNONRELOC? || d.k.VK?)
    ensures o.Stays? && IsHere(s.jpc, out) && Operand(m, out.r, RkOf(d.k)) == o.v == ValueOf(o)
  {
  }

  lemma OperandKept(m: Env, n: nat, k: Kind, q: Regs, q': Regs)
    requires Keeps(n, None, q, q') && (k.VNONRELOC? ==> k.reg < n)
    ensures Operand(m, q', RkOf(k)) == Operand(m, q, RkOf(k))
  {
  }

  lemma BothEmpty(d: ExpDesc, g: ExpDesc)
    requires g.t == [] && g.f == []
    ensures Both(d, g) == d
  {
  }

  /** The two operands of a comparison, one after the other. */
  lemma PairSemAt(m: Env, f: Meaning, g: Meaning, s0: State, s: State, d: ExpDesc, r: State, e: ExpDesc,
                  p: nat, q: Regs)
    requires InPlace(s0, s, d) && InPlace(s, r, e) && Unwidened(s, r) && Sem(m, f, s0, s, d, None)
             && Sem(m, g, s, r, e, None)
    requires Enters(s0, r, p, q) && p <= |s.code| && EntryRegs(s, r, RunAt(m, s.code, p, q).r)
    requires forall h, t :: Keeps(s0.nactvar, None, q, h) ==> g(h, t) == g(q, t)
    ensures var t := EntryTag(s0, p, q);
            f(q, t).Stays? && PairAt(m, s0, r, d.k, e.k, ValueOf(f(q, t)), ValueOf(g(q, f(q, t).tag)), p, q)
  {
    hide *;
    InPlaceParts(s0, s, d);
    InPlaceParts(s, r, e);
    InPlaceNew(s, e.k);
    FollowsFrom(s0, s, d, r, e);
    ChainAt(m, f, g, s0, s, d, r, e, p, q);
    ChainedParts(m, f, g, s0, s, d, r, e, p, q);
    var t, here, out := EntryTag(s0, p, q), RunAt(m, s.code, p, q), RunAt(m, r.code, p, q);
    var o := f(q, t);
    InPlaceHere(m, s, d, o, here);
    BothEmpty(e, d);
    KeepsFewer(s0.nactvar, s0.freereg, q, here.r);
    InPlaceHere(m, r, e, g(here.r, o.tag), out);
    OperandKept(m, s.freereg, d.k, here.r, out.r);
    KeepsFewer(s0.freereg, s.freereg, here.r, out.r);
    KeepsTransitive(s0.freereg, None, None, q, here.r, out.r);
    PairAtFrom(m, s0, r, d.k, e.k, ValueOf(o), ValueOf(g(q, o.tag)), p, q);
  }

  lemma InPlaceNew(s: State, k: Kind)
    requires k.VNONRELOC? || k.VK?
    ensures KindNew(s, k)
  {
  }

  lemma PairAtFrom(m: Env, s0: State, r: State, x: Kind, y: Kind, v: V, w: V, p: nat, q: Regs)
    requires p <= |r.code|
    requires var out := RunAt(m, r.code, p, q);
             && Keeps(s0.freereg, None, q, out.r) && IsHere(r.jpc, out)
             && Operand(m, out.r, RkOf(x)) == v && Operand(m, out.r, RkOf(y)) == w
    ensures PairAt(m, s0, r, x, y, v, w, p, q)
  {
  }

  function CompareIns(op: Comparison, x: RK, y: RK): Ins {
    if op.Gt? || op.Ge? then Compare(OpOf(op), true, y, x) else Compare(OpOf(op), !op.Ne?, x, y)
  }

  /** The comparison jumps exactly when it is true. */
  lemma CompareTakes(m: Env, op: Comparison, x: RK, y: RK, r: Regs)
    ensures Takes(m, r, CompareIns(op, x, y)) <==> Compares(m, op, Operand(m, r, x), Operand(m, r, y))
    ensures Testing(CompareIns(op, x, y)) && CompareIns(op, x, y).Compare?
  {
  }

  function Comparing(m: Env, op: Comparison, f: Meaning, g: Meaning): Meaning {
    (r, t) => Stays(Bool(Compares(m, op, ValueOf(f(r, t)), ValueOf(g(r, f(r, t).tag)))), None)
  }

  lemma ComparingIs(m: Env, op: Comparison, f: Meaning, g: Meaning, r: Regs, t: Option<V>)
    ensures Comparing(m, op, f, g)(r, t) ==
              Stays(Bool(Compares(m, op, ValueOf(f(r, t)), ValueOf(g(r, f(r, t).tag)))), None)
  {
    hide Compares;
  }

  lemma CompareSemAt(m: Env, op: Comparison, h: Meaning, s0: State, r: State, x: Kind, y: Kind, v: V, w: V,
                     p: nat, q: Regs)
    requires WellFormed(r.code) && Distinct(r.jpc) && AllPending(r.code, r.jpc) && StartOk(r.code, p)
    requires PairAt(m, s0, r, x, y, v, w, p, q) && h(q, EntryTag(s0, p, q)) == Stays(Bool(Compares(m, op, v, w)), None)
    ensures SemAt(m, h, s0, CondJump(r, CompareIns(op, RkOf(x), RkOf(y))), ExpDesc(VJMP(|r.code| + 1), [], []),
                  None, p, q)
  {
    hide WellFormed, Run, CondJump, CompareIns, Operand, Takes, Compares, RunAt, Distinct, AllPending;
    var i := CompareIns(op, RkOf(x), RkOf(y));
    CompareTakes(m, op, RkOf(x), RkOf(y), RunAt(m, r.code, p, q).r);
    CondJumpRun(m, r, i, p, q);
    CondJumpEnd(r, i);
  }

  /** One run of a comparison. */
  lemma CompareRuns(m: Env, op: Comparison, f: Meaning, g: Meaning, s0: State, s: State, d: ExpDesc, r: State,
                    e: ExpDesc, z: State, p: nat, q: Regs)
    requires InPlace(s0, s, d) && InPlace(s, r, e) && Sem(m, f, s0, s, d, None) && Sem(m, g, s, r, e, None)
    requires forall h, t :: Keeps(s0.nactvar, None, q, h) ==> g(h, t) == g(q, t)
    requires z.code == r.code && z.jpc == r.jpc && Base(s0, z, e) && Enters(s0, r, p, q)
    ensures SemAt(m, Comparing(m, op, f, g), s0, CondJump(z, CompareIns(op, RkOf(d.k), RkOf(e.k))),
                  ExpDesc(VJMP(|z.code| + 1), [], []), None, p, q)
  {
    hide *;
    var w := Widen(s, r);
    InPlaceParts(s0, s, d);
    InPlaceParts(s, r, e);
    BaseParts(s0, s, d);
    BaseParts(s, r, e);
    WidenBase(s0, s, d, r, e);
    WidenIs(s, r);
    WidenOk(m, f, s0, s, d, r, e);
    WidenSecond(m, g, s, r, e);
    InPlaceParts(s0, w, d);
    BaseParts(s0, w, d);
    BaseParts(w, r, e);
    InPlaceAgain(s, w, r, e);
    GrownWider(s0, w, r) by { GrownLength(s0, w); }
    EntersBack(s0, w, r, p, q);
    WidenAt(m, f, s0, s, d, r, e, p, q);
    NilParts(m, f, s0, w, d, r, p, q);
    PairSemAt(m, f, g, s0, w, d, r, e, p, q);
    var t := EntryTag(s0, p, q);
    PairSameCode(m, s0, r, z, d.k, e.k, ValueOf(f(q, t)), ValueOf(g(q, f(q, t).tag)), p, q);
    BaseParts(s0, z, e);
    HeldParts(z, e);
    EntersAt(s0, r, p, q);
    EntryOk(s0, z, p);
    ComparingIs(m, op, f, g, q, t);
    CompareSemAt(m, op, Comparing(m, op, f, g), s0, z, d.k, e.k, ValueOf(f(q, t)), ValueOf(g(q, f(q, t).tag)), p, q);
  }

  lemma InPlaceAgain(s: State, w: State, r: State, e: ExpDesc)
    requires InPlace(s, r, e) && Base(w, r, e) && w == s.(code := w.code) && |w.code| == |s.code| && Above(w, r)
             && (Sealed(w) <==> Sealed(s))
    ensures InPlace(w, r, e)
  {
  }

  lemma NilParts(m: Env, f: Meaning, s0: State, w: State, d: ExpDesc, r: State, p: nat, q: Regs)
    requires NilAfter(m, f, s0, w, d, r, p, q)
    ensures p <= |w.code| && EntryRegs(w, r, RunAt(m, w.code, p, q).r)
  {
  }

  lemma PairSameCode(m: Env, s0: State, r: State, z: State, x: Kind, y: Kind, v: V, w: V, p: nat, q: Regs)
    requires PairAt(m, s0, r, x, y, v, w, p, q) && z.code == r.code && z.jpc == r.jpc
    ensures PairAt(m, s0, z, x, y, v, w, p, q)
  {
  }

  /** The operands depend on the registers of the variables alone. */
  ghost predicate Settles(g: Meaning, n: nat) {
    forall h, q, t :: Keeps(n, None, q, h) ==> g(h, t) == g(q, t)
  }

  /** `codecomp`: the comparison of two operands. */
  lemma CompareOk(m: Env, op: Comparison, f: Meaning, g: Meaning, s0: State, s: State, d: ExpDesc, r: State, e: ExpDesc)
    requires InPlace(s0, s, d) && InPlace(s, r, e) && Sem(m, f, s0, s, d, None) && Sem(m, g, s, r, e, None)
             && Settles(g, s0.nactvar)
    ensures var q := FreeExp(FreeExp(r, e), d);
            var z, h := CondJump(q, CompareIns(op, RkOf(d.k), RkOf(e.k))), ExpDesc(VJMP(|q.code| + 1), d.t, d.f);
            Ready(s0, z, h) && Sem(m, Comparing(m, op, f, g), s0, z, h, None)
  {
    hide *;
    var q := FreeExp(FreeExp(r, e), d);
    var i := CompareIns(op, RkOf(d.k), RkOf(e.k));
    var z, h := CondJump(q, i), ExpDesc(VJMP(|q.code| + 1), d.t, d.f);
    InPlaceParts(s0, s, d);
    InPlaceParts(s, r, e);
    PairBase(s0, s, d, r, e);
    CompareTakes(m, op, RkOf(d.k), RkOf(e.k), map[]);
    FreeExpIs(r, e);
    FreeExpIs(FreeExp(r, e), d);
    FreedBoth(s0, s, d, r, e);
    BaseSameCode(s0, r, q, e);
    CondJumpOther(q, i);
    CompareAdds(e, h, |q.code| + 1);
    NotJump(e.k);
    CondJumpBase(s0, q, e, i, h);
    TidyParts(s0, q, z);
    SameAbove(s0, r, q);
    CompareReady(s0, q, i, h);
    forall p: nat, x | Enters(s0, z, p, x)
      ensures SemAt(m, Comparing(m, op, f, g), s0, z, h, None, p, x)
    {
      EntersBack(s0, q, z, p, x);
      EntersSame(s0, q, r, p, x);
      SettlesAt(g, s0.nactvar, x);
      CompareRuns(m, op, f, g, s0, s, d, r, e, q, p, x);
    }
    SemIs(m, Comparing(m, op, f, g), s0, z, h, None);
  }

  lemma NotJump(k: Kind)
    requires k.VNONRELOC? || k.VK?
    ensures !k.VJMP?
  {
  }

  lemma SettlesAt(g: Meaning, n: nat, q: Regs)
    requires Settles(g, n)
    ensures forall h, t :: Keeps(n, None, q, h) ==> g(h, t) == g(q, t)
  {
  }

  lemma EntersSame(s0: State, s: State, r: State, p: nat, q: Regs)
    requires Enters(s0, s, p, q) && r.code == s.code
    ensures Enters(s0, r, p, q)
  {
  }

  lemma PairBase(s0: State, s: State, d: ExpDesc, r: State, e: ExpDesc)
    requires InPlace(s0, s, d) && InPlace(s, r, e)
    ensures Base(s0, r, e) && r.nactvar == s0.nactvar && |s0.code| <= |r.code| && Above(s0, r)
  {
    hide *;
    var w := Widen(s, r);
    InPlaceParts(s0, s, d);
    InPlaceParts(s, r, e);
    BaseParts(s0, s, d);
    BaseParts(s, r, e);
    GrownLength(s0, s);
    GrownLength(s, r);
    AboveTwice(s0, s, r);
    WidenBase(s0, s, d, r, e);
    InPlaceParts(s0, w, d);
    InPlaceNew(w, e.k);
    FollowsFrom(s0, w, d, r, e);
    BothBase(s0, w, d, r, e);
    BothEmpty(e, d);
  }

  lemma FreedBoth(s0: State, s: State, d: ExpDesc, r: State, e: ExpDesc)
    requires InPlace(s0, s, d) && InPlace(s, r, e)
    ensures FreeExp(FreeExp(r, e), d).freereg == s0.freereg
  {
    hide Base;
    InPlaceParts(s0, s, d);
    InPlaceParts(s, r, e);
  }

  lemma CompareAdds(e: ExpDesc, h: ExpDesc, x: nat)
    requires h == ExpDesc(VJMP(x), [], []) && e.t == [] && e.f == []
    ensures Adds(e, h, x)
  {
  }

  lemma CompareReady(s0: State, q: State, i: Ins, h: ExpDesc)
    requires Base(s0, CondJump(q, i), h) && h.k == VJMP(|q.code| + 1) && i.Compare? && |s0.code| <= |q.code|
             && Above(s0, CondJump(q, i))
    requires NoTarget(CondJump(q, i).code) && Sealed(CondJump(q, i)) && Labelled(CondJump(q, i))
             && CondJump(q, i).jpc == [] && q.freereg == s0.freereg
    ensures Ready(s0, CondJump(q, i), h)
  {
    hide Base, CondJump;
    CondJumpEnd(q, i);
    CondJumpOther(q, i);
  }

  // Constants are only ever added

  lemma DischargeGrows(s: State, d: ExpDesc)
    ensures DischargeVars(s, d).0.consts == s.consts
  {
  }

  lemma LoadGrows(s: State, k: Kind, reg: nat)
    ensures s.consts <= LoadTo(s, k, reg).consts
  {
  }

  lemma Exp2RegGrows(s: State, d: ExpDesc, reg: nat)
    ensures s.consts <= Exp2Reg(s, d, reg).0.consts
  {
    hide PatchList, LoadTo, DischargeVars, NeedValue;
    var (s1, d1) := DischargeVars(s, d);
    DischargeGrows(s, d);
    LoadGrows(s1, d1.k, reg);
  }

  lemma AnyRegConsts(s: State, d: ExpDesc)
    ensures s.consts <= Exp2AnyReg(s, d).0.consts
  {
    hide Exp2Reg, DischargeVars;
    var (s1, d1) := DischargeVars(s, d);
    var (s2, d2) := DischargeVars(s1, d1);
    DischargeGrows(s, d);
    DischargeGrows(s1, d1);
    Exp2RegGrows(s1, d1, if d1.k.VNONRELOC? then d1.k.reg else 0);
    FreeExpIs(s2, d2);
    Exp2RegGrows(Reserve(FreeExp(s2, d2)), d2, FreeExp(s2, d2).freereg);
  }

  lemma RkGrows(s: State, d: ExpDesc)
    ensures s.consts <= Exp2RK(s, d).0.consts
  {
    hide Exp2AnyReg, DischargeVars;
    AnyRegConsts(s, d);
    DischargeGrows(s, d);
    var (s1, d1) := Exp2Val(s, d);
    AnyRegConsts(s1, d1);
  }

  lemma GoIfGrows(s: State, d: ExpDesc, cond: bool)
    ensures s.consts <= GoIf(s, d, cond).0.consts
  {
    hide LoadTo, DischargeVars, PatchList;
    var (s1, d1) := DischargeVars(s, d);
    DischargeGrows(s, d);
    var r := Reserve(s1);
    var (s2, d2) := DischargeVars(r, d1);
    DischargeGrows(r, d1);
    LoadGrows(s2, d2.k, s1.freereg);
  }

  lemma NotGrows(s: State, d: ExpDesc)
    ensures s.consts <= CodeNot(s, d).0.consts
  {
    hide LoadTo, DischargeVars, PatchList, RemoveValues;
    var (s1, d1) := DischargeVars(s, d);
    DischargeGrows(s, d);
    var r := Reserve(s1);
    var (s2, d2) := DischargeVars(r, d1);
    DischargeGrows(r, d1);
    LoadGrows(s2, d2.k, s1.freereg);
  }

  lemma CompareGrows(s: State, op: Comparison, d1: ExpDesc, d2: ExpDesc)
    ensures Exp2RK(Exp2RK(s, d1).0, d2).0.consts == CodeComp(s, op, d1, d2).0.consts
    ensures s.consts <= CodeComp(s, op, d1, d2).0.consts
  {
    hide Exp2RK, PatchList;
    RkGrows(s, d1);
    RkGrows(Exp2RK(s, d1).0, d2);
  }

  lemma {:induction false} CompileGrows(s: State, e: Expr)
    ensures s.consts <= Compile(s, e).0.consts
    decreases e
  {
    hide GoIf, CodeNot, Exp2RK, CodeComp, DischargeVars;
    match e
    case Neg(a) =>
      CompileGrows(s, a);
      var (s1, d1) := Compile(s, a);
      NotGrows(s1, d1);
    case And(a, b) => JoinGrows(s, a, b, true);
    case Or(a, b) => JoinGrows(s, a, b, false);
    case Cmp(op, a, b) =>
      CompileGrows(s, a);
      var (s1, d1) := Compile(s, a);
      RkGrows(s1, d1);
      var (s2, d2) := Exp2RK(s1, d1);
      CompileGrows(s2, b);
      var (s3, d3) := Compile(s2, b);
      CompareGrows(s3, op, d2, d3);
    case _ =>
  }

  lemma {:induction false} JoinGrows(s: State, a: Expr, b: Expr, cond: bool)
    ensures var (s1, d1) := Compile(s, a);
            var (s2, d2) := GoIf(s1, d1, cond);
            var (s3, d3) := Compile(s2, b);
            s.consts <= s1.consts <= s2.consts <= s3.consts == DischargeVars(s3, d3).0.consts
    decreases Join(cond, a, b), 0
  {
    hide GoIf, DischargeVars;
    var (s1, d1) := Compile(s, a);
    var (s2, d2) := GoIf(s1, d1, cond);
    var (s3, d3) := Compile(s2, b);
    CompileGrows(s, a);
    GoIfGrows(s1, d1, cond);
    CompileGrows(s2, b);
    DischargeGrows(s3, d3);
  }

  // The theorem

  lemma StartFrom(s0: State, s: State, d: ExpDesc)
    requires Base(s0, s, d) && Labelled(s) && s.freereg >= s0.freereg
    ensures Start(s) && s.nactvar == s0.nactvar
  {
    BaseParts(s0, s, d);
    HeldParts(s, d);
  }

  /** The states that compiling `and` and `or` goes through. */
  lemma JoinParts(s: State, a: Expr, b: Expr, cond: bool)
    ensures var (s1, d1) := Compile(s, a);
            var (s2, g) := GoIf(s1, d1, cond);
            var (s3, d3) := Compile(s2, b);
            var (s4, d4) := DischargeVars(s3, d3);
            && Compile(s, Join(cond, a, b)) == (s4, if cond then d4.(f := d4.f + g.f) else d4.(t := d4.t + g.t))
            && forall n :: Scoped(Join(cond, a, b), n) ==> Scoped(a, n) && Scoped(b, n)
  {
    hide GoIf, DischargeVars;
  }

  lemma OneWay(g: ExpDesc, d: ExpDesc, cond: bool)
    requires if cond then g.t == [] else g.f == []
    ensures Both(d, g.(k := VTRUE)) == if cond then d.(f := d.f + g.f) else d.(t := d.t + g.t)
  {
  }

  lemma {:induction false} CompileJoinOk(m: Env, a: Expr, b: Expr, cond: bool, s: State)
    requires Start(s) && Scoped(Join(cond, a, b), s.nactvar) && Compile(s, Join(cond, a, b)).0.consts <= m.k
    ensures var (r, d) := Compile(s, Join(cond, a, b));
            Ready(s, r, d) && Sem(m, Meant(m, s, Join(cond, a, b)), s, r, d, None)
    decreases Join(cond, a, b), 0
  {
    hide *;
    JoinSmaller(a, b, cond);
    JoinParts(s, a, b, cond);
    JoinGrows(s, a, b, cond);
    var (s1, d1) := Compile(s, a);
    CompileOk(m, a, s);
    var (s2, g) := GoIf(s1, d1, cond);
    GoIfOk(m, Meant(m, s, a), s, s1, d1, cond);
    StartFrom(s, s2, g.(k := VTRUE));
    var (s3, d3) := Compile(s2, b);
    CompileOk(m, b, s2);
    DischargeVarsOk(m, Meant(m, s2, b), s2, s3, d3);
    var (s4, d4) := DischargeVars(s3, d3);
    OneWay(g, d4, cond);
    JoinOk(m, a, b, cond, s, s2, g.(k := VTRUE), s4, d4);
  }

  lemma JoinSmaller(a: Expr, b: Expr, cond: bool)
    ensures (Join(cond, a, b) decreases to a) && (Join(cond, a, b) decreases to b)
  {
  }

  lemma CmpParts(s: State, op: Comparison, a: Expr, b: Expr)
    ensures var (s1, d1) := Compile(s, a);
            var (s2, d2) := Exp2RK(s1, d1);
            var (s3, d3) := Compile(s2, b);
            && Compile(s, Cmp(op, a, b)) == CodeComp(s3, op, d2, d3)
            && forall n :: Scoped(Cmp(op, a, b), n) ==> Scoped(a, n) && Scoped(b, n)
  {
    hide Exp2RK, CodeComp;
  }

  lemma CodeCompIs(s: State, op: Comparison, d1: ExpDesc, s2: State, d2: ExpDesc, e: ExpDesc)
    requires Exp2RK(s, d1) == (s, d1) && Exp2RK(s, d2) == (s2, e)
    ensures var q := FreeExp(FreeExp(s2, e), d1);
            CodeComp(s, op, d1, d2) == (CondJump(q, CompareIns(op, RkOf(d1.k), RkOf(e.k))),
                                        ExpDesc(VJMP(|q.code| + 1), d1.t, d1.f))
  {
    hide Exp2RK, CondJump;
  }

  lemma CmpGrows(s: State, op: Comparison, a: Expr, b: Expr)
    ensures var (s1, d1) := Compile(s, a);
            var (s2, d2) := Exp2RK(s1, d1);
            var (s3, d3) := Compile(s2, b);
            s1.consts <= s2.consts <= s3.consts <= CodeComp(s3, op, d2, d3).0.consts
  {
    hide *;
    var (s1, d1) := Compile(s, a);
    RkGrows(s1, d1);
    var (s2, d2) := Exp2RK(s1, d1);
    CompileGrows(s2, b);
    var (s3, d3) := Compile(s2, b);
    CompareGrows(s3, op, d2, d3);
  }

  lemma RkSettles(m: Env, s: State, e: Expr, n: nat, s1: State, d1: ExpDesc)
    requires Scoped(e, n)
    ensures Settles(RkSem(s1, d1, Meant(m, s, e)), n)
  {
    hide Act, RkSem, RkTo;
    forall h, q, t | Keeps(n, None, q, h)
      ensures RkSem(s1, d1, Meant(m, s, e))(h, t) == RkSem(s1, d1, Meant(m, s, e))(q, t)
    {
      KeepsBelow(n, n, q, h);
      ActAgrees(m, s, e, n, q, h, t);
      RkPoint(s1, d1, Meant(m, s, e), q, t);
      RkPoint(s1, d1, Meant(m, s, e), h, t);
    }
  }

  lemma CmpMeant(m: Env, s: State, op: Comparison, a: Expr, b: Expr, r: Regs, t: Option<V>)
    ensures var (s1, d1) := Compile(s, a);
            var s2 := Exp2RK(s1, d1).0;
            var (s3, d3) := Compile(s2, b);
            Comparing(m, op, RkSem(s1, d1, Meant(m, s, a)), RkSem(s3, d3, Meant(m, s2, b)))(r, t) ==
                  Meant(m, s, Cmp(op, a, b))(r, t)
  {
    hide *;
    var (s1, d1) := Compile(s, a);
    var s2 := Exp2RK(s1, d1).0;
    var (s3, d3) := Compile(s2, b);
    var f, g := RkSem(s1, d1, Meant(m, s, a)), RkSem(s3, d3, Meant(m, s2, b));
    ComparingIs(m, op, f, g, r, t);
    RkPoint(s1, d1, Meant(m, s, a), r, t);
    MeantIs(m, s, a, r, t);
    RkPoint(s3, d3, Meant(m, s2, b), r, f(r, t).tag);
    MeantIs(m, s2, b, r, f(r, t).tag);
    ActCmp(m, s, op, a, b, r, t);
    MeantIs(m, s, Cmp(op, a, b), r, t);
  }

  lemma {:induction false} CompileCmpOk(m: Env, op: Comparison, a: Expr, b: Expr, s: State)
    requires Start(s) && Scoped(Cmp(op, a, b), s.nactvar) && Compile(s, Cmp(op, a, b)).0.consts <= m.k
    ensures var (r, d) := Compile(s, Cmp(op, a, b)); Ready(s, r, d) && Sem(m, Meant(m, s, Cmp(op, a, b)), s, r, d, None)
    decreases Cmp(op, a, b), 0
  {
    hide *;
    CmpParts(s, op, a, b);
    var (s1, d1) := Compile(s, a);
    var (s2, d2) := Exp2RK(s1, d1);
    var (s3, d3) := Compile(s2, b);
    var (s4, d4) := Exp2RK(s3, d3);
    CmpGrows(s, op, a, b);
    CompileOk(m, a, s);
    RkOk(m, Meant(m, s, a), s, s1, d1);
    InPlaceParts(s, s2, d2);
    StartFrom(s, s2, d2);
    RkAgain(s3, d2, s, s2);
    CompileOk(m, b, s2);
    CompareGrows(s3, op, d2, d3);
    RkOk(m, Meant(m, s2, b), s2, s3, d3);
    CodeCompIs(s3, op, d2, s4, d3, d4);
    RkSettles(m, s2, b, s.nactvar, s3, d3);
    var f, g := RkSem(s1, d1, Meant(m, s, a)), RkSem(s3, d3, Meant(m, s2, b));
    CompareOk(m, op, f, g, s, s2, d2, s4, d4);
    forall r, t
      ensures Comparing(m, op, f, g)(r, t) == Meant(m, s, Cmp(op, a, b))(r, t)
    {
      CmpMeant(m, s, op, a, b, r, t);
    }
    SemSame(m, Comparing(m, op, f, g), Meant(m, s, Cmp(op, a, b)), s, CodeComp(s3, op, d2, d3).0,
            CodeComp(s3, op, d2, d3).1, None);
  }

  /** Every run of the code of an expression ends as `Act` says. */
  lemma {:induction false} CompileOk(m: Env, e: Expr, s: State)
    requires Start(s) && Scoped(e, s.nactvar) && Compile(s, e).0.consts <= m.k
    ensures var (r, d) := Compile(s, e); Ready(s, r, d) && Sem(m, Meant(m, s, e), s, r, d, None)
    decreases e, 1
  {
    hide *;
    match e
    case Lit(v) => LitOk(m, s, v);
    case Str(n) => StrIs(s, n); StrOk(m, s, n);
    case Local(a) => LocalOk(m, s, a);
    case Up(u) => UpOk(m, s, u);
    case Neg(a) =>
      NegParts(s, a);
      var (s1, d1) := Compile(s, a);
      NotGrows(s1, d1);
      CompileOk(m, a, s);
      CodeNotOk(m, Meant(m, s, a), s, s1, d1);
      NegMeant(m, s, a);
      SemSame(m, CodeNotOf(s1, d1, Meant(m, s, a)), Meant(m, s, Neg(a)), s, CodeNot(s1, d1).0, CodeNot(s1, d1).1, None);
    case And(a, b) => JoinIs(a, b); CompileJoinOk(m, a, b, true, s);
    case Or(a, b) => JoinIs(a, b); CompileJoinOk(m, a, b, false, s);
    case Cmp(op, a, b) => CompileCmpOk(m, op, a, b, s);
  }

  lemma NegMeant(m: Env, s: State, a: Expr)
    ensures var (s1, d1) := Compile(s, a);
            forall r, t :: CodeNotOf(s1, d1, Meant(m, s, a))(r, t) == Meant(m, s, Neg(a))(r, t)
  {
    hide NotTo, CodeNotOf, CodeNot;
    var (s1, d1) := Compile(s, a);
    forall r, t
      ensures CodeNotOf(s1, d1, Meant(m, s, a))(r, t) == Meant(m, s, Neg(a))(r, t)
    {
      NotPoint(s1, d1, Meant(m, s, a), r, t);
      MeantIs(m, s, a, r, t);
    }
  }

  lemma JoinIs(a: Expr, b: Expr)
    ensures Join(true, a, b) == And(a, b) && Join(false, a, b) == Or(a, b)
  {
  }

  lemma StrIs(s: State, n: int)
    ensures Compile(s, Str(n)).0 == AddK(s, Other(n))
  {
  }

  lemma NegParts(s: State, a: Expr)
    ensures Compile(s, Neg(a)) == (var (s1, d1) := Compile(s, a); CodeNot(s1, d1))
    ensures forall n :: Scoped(Neg(a), n) ==> Scoped(a, n)
  {
  }
}
