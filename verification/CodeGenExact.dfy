/** The conditions are exact: where a jump can carry a stale value, some variables and comparisons show it. */
module CodeGenExact {
  import opened Common
  import opened JumpCode
  import opened CodeGen
  import opened CodeGenSem
  import opened CodeGenCond
  import opened CodeGenExp
  import opened CodeGenMeaning
  import opened CodeGenWays
  import opened CodeGenTheorem
  import opened CodeGenBranch

  function Locals(e: Expr): set<nat> {
    match e
    case Local(r) => {r}
    case Neg(a) => Locals(a)
    case And(a, b) => Locals(a) + Locals(b)
    case Or(a, b) => Locals(a) + Locals(b)
    case Cmp(_, a, b) => Locals(a) + Locals(b)
    case _ => {}
  }

  function Upvals(e: Expr): set<nat> {
    match e
    case Up(u) => {u}
    case Neg(a) => Upvals(a)
    case And(a, b) => Upvals(a) + Upvals(b)
    case Or(a, b) => Upvals(a) + Upvals(b)
    case Cmp(_, a, b) => Upvals(a) + Upvals(b)
    case _ => {}
  }

  function Sites(e: Expr): set<nat> {
    match e
    case Neg(a) => Sites(a)
    case And(a, b) => Sites(a) + Sites(b)
    case Or(a, b) => Sites(a) + Sites(b)
    case Cmp(op, a, b) => {op.site} + Sites(a) + Sites(b)
    case _ => {}
  }

  predicate Apart(a: Expr, b: Expr) {
    Locals(a) !! Locals(b) && Upvals(a) !! Upvals(b) && Sites(a) !! Sites(b)
  }

  /** Every local variable and upvalue occurs once, and so does every comparison. */
  predicate UsedOnce(e: Expr) {
    match e
    case Neg(a) => UsedOnce(a)
    case And(a, b) => UsedOnce(a) && UsedOnce(b) && Apart(a, b)
    case Or(a, b) => UsedOnce(a) && UsedOnce(b) && Apart(a, b)
    case Cmp(op, a, b) => UsedOnce(a) && UsedOnce(b) && Apart(a, b) && op.site !in Sites(a) + Sites(b)
    case _ => true
  }

  // Registers and upvalues that are nil or a number, and comparisons with a fixed answer

  /** The variables that are set, the comparisons that are true, and those that are true for a single pair of values. */
  datatype Choice = Choice(l: set<nat>, u: set<nat>, c: set<nat>, told: map<nat, (V, V)>)

  const NONE: Choice := Choice({}, {}, {}, map[])

  function RegsOf(h: Choice): Regs { map a | a in h.l :: Other(0) }

  function Answer(h: Choice, site: nat, x: V, y: V): bool {
    if site in h.told then (x, y) == h.told[site] else site in h.c
  }

  /** The same constants, and `n` upvalues. */
  function With(m: Env, n: nat, h: Choice): Env {
    Env(seq(n, i => if i in h.u then Other(0) else Nil), m.k, (op: CmpOp, x: V, y: V) => Answer(h, op.site, x, y))
  }

  ghost predicate Below(u: set<nat>, n: nat) { forall x :: x in u ==> x < n }

  /** Only variables and comparisons of the expression are chosen. */
  predicate Within(h: Choice, e: Expr) {
    h.l <= Locals(e) && h.u <= Upvals(e) && h.c <= Sites(e) && h.told.Keys <= Sites(e)
  }

  function Both(a: Choice, b: Choice): Choice {
    Choice(a.l + b.l, a.u + b.u, a.c + b.c, a.told + b.told)
  }

  ghost predicate SameUses(m: Env, m': Env, r: Regs, r': Regs, e: Expr) {
    && (forall a :: a in Locals(e) ==> Get(r, a) == Get(r', a))
    && (forall u :: u in Upvals(e) ==> Upval(m, u) == Upval(m', u))
    && (forall op: CmpOp, x, y :: op.site in Sites(e) ==> m.rel(op, x, y) == m'.rel(op, x, y))
  }

  lemma CmpUses(m: Env, m': Env, r: Regs, r': Regs, op: Comparison, a: Expr, b: Expr)
    requires SameUses(m, m', r, r', Cmp(op, a, b))
    ensures SameUses(m, m', r, r', a) && SameUses(m, m', r, r', b)
    ensures forall x, y :: Compares(m, op, x, y) == Compares(m', op, x, y)
  {
  }

  lemma PartUses(m: Env, m': Env, r: Regs, r': Regs, e: Expr)
    requires SameUses(m, m', r, r', e)
    ensures e.Neg? ==> SameUses(m, m', r, r', e.e)
    ensures e.And? ==> SameUses(m, m', r, r', e.x) && SameUses(m, m', r, r', e.y)
    ensures e.Or? ==> SameUses(m, m', r, r', e.x) && SameUses(m, m', r, r', e.y)
  {
  }

  /** What an expression does depends on the variables and comparisons that it uses alone. */
  lemma {:induction false} ActUses(m: Env, m': Env, s: State, e: Expr, r: Regs, r': Regs, t: Option<V>)
    requires SameUses(m, m', r, r', e)
    ensures Act(m, s, e, r, t) == Act(m', s, e, r', t)
    decreases e
  {
    hide GoIf, GoIfTo, VarsTo, NotTo, RkTo, Exp2RK, Compares, Compile, Get, Upval, SameUses;
    match e
    case Local(_) => VarUses(m, m', r, r', e);
    case Up(_) => VarUses(m, m', r, r', e);
    case Neg(a) => PartUses(m, m', r, r', e); ActUses(m, m', s, a, r, r', t);
    case And(a, b) =>
      var (s1, d1) := Compile(s, a);
      PartUses(m, m', r, r', e);
      ActUses(m, m', s, a, r, r', t);
      ActUses(m, m', GoIf(s1, d1, true).0, b, r, r', GoIfTo(s1, d1, true, Act(m, s, a, r, t)).tag);
    case Or(a, b) =>
      var (s1, d1) := Compile(s, a);
      PartUses(m, m', r, r', e);
      ActUses(m, m', s, a, r, r', t);
      ActUses(m, m', GoIf(s1, d1, false).0, b, r, r', GoIfTo(s1, d1, false, Act(m, s, a, r, t)).tag);
    case Cmp(op, a, b) =>
      var (s1, d1) := Compile(s, a);
      CmpUses(m, m', r, r', op, a, b);
      ActUses(m, m', s, a, r, r', t);
      ActUses(m, m', Exp2RK(s1, d1).0, b, r, r', RkTo(s1, d1, Act(m, s, a, r, t)).tag);
    case _ =>
  }

  lemma VarUses(m: Env, m': Env, r: Regs, r': Regs, e: Expr)
    requires SameUses(m, m', r, r', e)
    ensures e.Local? ==> Get(r, e.r) == Get(r', e.r)
    ensures e.Up? ==> Upval(m, e.u) == Upval(m', e.u)
  {
  }

  lemma {:induction false} EvalUses(m: Env, m': Env, r: Regs, r': Regs, e: Expr)
    requires SameUses(m, m', r, r', e)
    ensures Eval(m, r, e) == Eval(m', r', e)
  {
    hide Compares, Get, Upval, SameUses;
    match e
    case Local(_) => VarUses(m, m', r, r', e);
    case Up(_) => VarUses(m, m', r, r', e);
    case Neg(a) => PartUses(m, m', r, r', e); EvalUses(m, m', r, r', a);
    case And(a, b) => PartUses(m, m', r, r', e); EvalUses(m, m', r, r', a); EvalUses(m, m', r, r', b);
    case Or(a, b) => PartUses(m, m', r, r', e); EvalUses(m, m', r, r', a); EvalUses(m, m', r, r', b);
    case Cmp(op, a, b) => CmpUses(m, m', r, r', op, a, b); EvalUses(m, m', r, r', a); EvalUses(m, m', r, r', b);
    case _ =>
  }

  lemma {:induction false} SeenUses(m: Env, m': Env, s: State, e: Expr, r: Regs, r': Regs, t: Option<V>)
    requires SameUses(m, m', r, r', e)
    ensures Seen(m, s, e, r, t) == Seen(m', s, e, r', t)
    decreases e
  {
    hide GoIf, GoIfTo, Act, Compile, Get, Upval, SameUses;
    match e
    case Local(_) => VarUses(m, m', r, r', e);
    case Up(_) => VarUses(m, m', r, r', e);
    case Neg(a) => PartUses(m, m', r, r', e); SeenUses(m, m', s, a, r, r', t);
    case And(a, b) =>
      var (s1, d1) := Compile(s, a);
      PartUses(m, m', r, r', e);
      ActUses(m, m', s, a, r, r', t);
      SeenUses(m, m', s, a, r, r', t);
      SeenUses(m, m', GoIf(s1, d1, true).0, b, r, r', GoIfTo(s1, d1, true, Act(m, s, a, r, t)).tag);
    case Or(a, b) =>
      var (s1, d1) := Compile(s, a);
      PartUses(m, m', r, r', e);
      ActUses(m, m', s, a, r, r', t);
      SeenUses(m, m', s, a, r, r', t);
      SeenUses(m, m', GoIf(s1, d1, false).0, b, r, r', GoIfTo(s1, d1, false, Act(m, s, a, r, t)).tag);
    case Cmp(_, _, _) => ActUses(m, m', s, e, r, r', t);
    case _ =>
  }

  /** Choices for two expressions that share nothing can be made together. */
  lemma BothUses(m: Env, n: nat, a: Expr, b: Expr, ha: Choice, hb: Choice)
    requires Apart(a, b) && Within(ha, a) && Within(hb, b)
    ensures var h := Both(ha, hb);
            && SameUses(With(m, n, ha), With(m, n, h), RegsOf(ha), RegsOf(h), a)
            && SameUses(With(m, n, hb), With(m, n, h), RegsOf(hb), RegsOf(h), b)
  {
    hide Locals, Upvals, Sites;
  }

  lemma BothWithin(a: Expr, b: Expr, ha: Choice, hb: Choice)
    requires Within(ha, a) && Within(hb, b)
    ensures forall cond :: Within(Both(ha, hb), Join(cond, a, b))
    ensures forall op: Comparison, c :: Within(Telling(Both(ha, hb), op, c), Cmp(op, a, b))
    ensures Within(NONE, a) && Both(ha, NONE) == ha
  {
  }

  lemma NoneWithin(e: Expr)
    ensures Within(NONE, e)
  {
  }

  // No jump carries a boolean

  predicate PlainTag(t: Option<V>) { t.Some? ==> !t.value.Bool? }

  /** The shapes whose values are not computed, and are carried by jumps. */
  predicate Testable(sh: Shape) { sh.SLocal? || sh.SUp? || sh.SReg? || sh.SNil? || sh.SConst? }

  ghost predicate PlainVars(m: Env, r: Regs) { forall a: nat :: !Get(r, a).Bool? && !Upval(m, a).Bool? }

  predicate PlainOut(e: Expr, o: Outcome) { PlainTag(o.tag) && (o.Stays? && Testable(ShapeFor(e)) ==> !o.v.Bool?) }

  lemma ChosenPlain(m: Env, n: nat, h: Choice)
    ensures PlainVars(With(m, n, h), RegsOf(h))
  {
  }

  lemma GoIfPlain(s: State, d: ExpDesc, cond: bool, o: Outcome)
    requires PlainTag(o.tag) && (o.Stays? && Testable(ShapeOf(s, d.k)) ==> !o.v.Bool?)
    ensures PlainTag(GoIfTo(s, d, cond, o).tag)
  {
    hide DischargeVars, ShapeOf;
    SameLiterals(s, d);
    LiteralShapes(ShapeOf(s, d.k), cond);
  }

  lemma LiteralShapes(sh: Shape, cond: bool)
    ensures GoesOnShape(sh, cond) || AlwaysShape(sh, cond) || sh.STest? || sh.SNot? || Testable(sh)
  {
  }

  lemma NotTestable(sh: Shape)
    ensures !Testable(Negation(sh))
  {
  }

  lemma NotPlain(s: State, d: ExpDesc, o: Outcome)
    requires PlainTag(o.tag)
    ensures PlainTag(NotTo(s, d, o).tag)
  {
    hide DischargeVars;
  }

  lemma VarsPlain(b: Expr, k: Kind, o: Outcome)
    requires PlainOut(b, o)
    ensures PlainTag(VarsTo(k, o).tag)
            && (VarsTo(k, o).Stays? && Testable(Discharged(ShapeFor(b))) ==> !VarsTo(k, o).v.Bool?)
  {
    hide ShapeFor;
  }

  /** With such variables no jump carries a boolean, as the values of comparisons and of `not` are not carried. */
  lemma {:induction false} ActPlain(m: Env, s: State, e: Expr, r: Regs, t: Option<V>)
    requires PlainVars(m, r) && PlainTag(t)
    ensures PlainOut(e, Act(m, s, e, r, t))
    decreases e, 1
  {
    hide GoIf, GoIfTo, VarsTo, NotTo, RkTo, Exp2RK, Compares, Compile, Get, Upval, Negation;
    match e
    case Neg(a) =>
      ActPlain(m, s, a, r, t);
      NotPlain(Compile(s, a).0, Compile(s, a).1, Act(m, s, a, r, t));
      NotTestable(ShapeFor(a));
    case And(a, b) => JoinIs(a, b); JoinActPlain(m, s, a, b, true, r, t);
    case Or(a, b) => JoinIs(a, b); JoinActPlain(m, s, a, b, false, r, t);
    case _ =>
  }

  lemma {:induction false} JoinActPlain(m: Env, s: State, a: Expr, b: Expr, cond: bool, r: Regs, t: Option<V>)
    requires PlainVars(m, r) && PlainTag(t)
    ensures PlainOut(Join(cond, a, b), Act(m, s, Join(cond, a, b), r, t))
    decreases Join(cond, a, b), 0
  {
    hide GoIf, GoIfTo, VarsTo, Act, Compile, PlainVars, ShapeFor, Testable, Discharged;
    JoinSmaller(a, b, cond);
    ActJoin(m, s, a, b, cond, r, t);
    JoinShape(a, b, cond);
    SecondPlain(m, s, a, cond, r, t);
    var (s1, d1) := Compile(s, a);
    var s2, q := GoIf(s1, d1, cond).0, GoIfTo(s1, d1, cond, Act(m, s, a, r, t));
    if q.Stays? {
      ActPlain(m, s2, b, r, q.tag);
      VarsPlain(b, Compile(s2, b).1.k, Act(m, s2, b, r, q.tag));
    }
  }

  lemma JoinShape(a: Expr, b: Expr, cond: bool)
    ensures ShapeFor(Join(cond, a, b)) == Discharged(ShapeFor(b))
  {
  }

  lemma {:induction false} SecondPlain(m: Env, s: State, a: Expr, cond: bool, r: Regs, t: Option<V>)
    requires PlainVars(m, r) && PlainTag(t)
    ensures PlainTag(GoIfTo(Compile(s, a).0, Compile(s, a).1, cond, Act(m, s, a, r, t)).tag)
    decreases a, 2
  {
    hide GoIfTo, Act, Compile, PlainVars, Testable;
    ActPlain(m, s, a, r, t);
    ShapeIs(s, a);
    GoIfPlain(Compile(s, a).0, Compile(s, a).1, cond, Act(m, s, a, r, t));
  }

  // Every way is taken

  /** With this choice the outcome takes the way, with the value of the language. */
  ghost predicate Realizes(m: Env, n: nat, s: State, e: Expr, t: Option<V>, w: Way, h: Choice) {
    && Within(h, e)
    && Fits(Act(With(m, n, h), s, e, RegsOf(h), t), w, Eval(With(m, n, h), RegsOf(h), e))
  }

  lemma TakesMore(m: Env, n: nat, s: State, e: Expr, t: Option<V>, w: Way, h: Choice, h': Choice)
    requires Realizes(m, n, s, e, t, w, h)
    requires SameUses(With(m, n, h), With(m, n, h'), RegsOf(h), RegsOf(h'), e)
    ensures Act(With(m, n, h'), s, e, RegsOf(h'), t) == Act(With(m, n, h), s, e, RegsOf(h), t)
    ensures Eval(With(m, n, h'), RegsOf(h'), e) == Eval(With(m, n, h), RegsOf(h), e)
    ensures Fits(Act(With(m, n, h'), s, e, RegsOf(h'), t), w, Eval(With(m, n, h'), RegsOf(h'), e))
  {
    hide Act, Eval, Fits, With, RegsOf, SameUses;
    ActUses(With(m, n, h), With(m, n, h'), s, e, RegsOf(h), RegsOf(h'), t);
    EvalUses(With(m, n, h), With(m, n, h'), RegsOf(h), RegsOf(h'), e);
  }

  lemma {:induction false} Realize(m: Env, n: nat, s: State, e: Expr, t: Option<V>, w: Way) returns (h: Choice)
    requires UsedOnce(e) && Below(Upvals(e), n) && w in Ways(e, t.Some?) && PlainTag(t)
    ensures Realizes(m, n, s, e, t, w, h)
    decreases e, 1
  {
    hide GoIf, GoIfTo, CodeNot, DischargeVars, Second, LeaveWays, NotWay, Act, Eval, Fits, Compares;
    match e
    case Neg(a) =>
      var x :| x in Ways(a, t.Some?) && NotWay(ShapeFor(a), x) == w;
      h := Realize(m, n, s, a, t, x);
      NegTakes(m, n, s, a, t, x, h);
    case And(a, b) => JoinIs(a, b); h := JoinRealize(m, n, s, a, b, true, t, w);
    case Or(a, b) => JoinIs(a, b); h := JoinRealize(m, n, s, a, b, false, t, w);
    case Cmp(op, a, b) =>
      h := NONE.(c := if w.truth != op.Ne? then {op.site} else {});
      CmpTakes(m, n, s, op, a, b, t, w, h);
    case Local(a) =>
      h := NONE.(l := if w.truth then {a} else {});
      AtomTakes(m, n, s, e, t, w, h);
    case Up(u) =>
      h := NONE.(u := if w.truth then {u} else {});
      AtomTakes(m, n, s, e, t, w, h);
    case Lit(_) => h := NONE; AtomTakes(m, n, s, e, t, w, h);
    case Str(_) => h := NONE; AtomTakes(m, n, s, e, t, w, h);
  }

  lemma AtomTakes(m: Env, n: nat, s: State, e: Expr, t: Option<V>, w: Way, h: Choice)
    requires (e.Lit? || e.Str? || e.Local? || e.Up?) && Below(Upvals(e), n) && w in Ways(e, t.Some?) && w.Here?
    requires h == Choice(if e.Local? && w.truth then {e.r} else {}, if e.Up? && w.truth then {e.u} else {}, {}, map[])
    ensures Realizes(m, n, s, e, t, w, h)
  {
  }

  /** A comparison with a fixed answer. */
  lemma CmpTakes(m: Env, n: nat, s: State, op: Comparison, a: Expr, b: Expr, t: Option<V>, w: Way, h: Choice)
    requires w in Ways(Cmp(op, a, b), t.Some?) && w.Here?
    requires h == NONE.(c := if w.truth != op.Ne? then {op.site} else {})
    ensures Realizes(m, n, s, Cmp(op, a, b), t, w, h)
  {
    hide Exp2RK, RkTo, Compile, Act;
    ActCmp(With(m, n, h), s, op, a, b, RegsOf(h), t);
    assert forall x, y :: Compares(With(m, n, h), op, x, y) == w.truth;
  }

  lemma NegTakes(m: Env, n: nat, s: State, a: Expr, t: Option<V>, x: Way, h: Choice)
    requires Realizes(m, n, s, a, t, x, h)
    ensures Realizes(m, n, s, Neg(a), t, NotWay(ShapeFor(a), x), h)
  {
    hide Fits, With, RegsOf, DischargeVars, NotWay;
    ShapeIs(s, a);
    NotFits(Compile(s, a).0, Compile(s, a).1, Act(With(m, n, h), s, a, RegsOf(h), t), x,
            Eval(With(m, n, h), RegsOf(h), a));
  }

  lemma JoinUses(a: Expr, b: Expr, cond: bool, n: nat)
    ensures UsedOnce(Join(cond, a, b)) ==> UsedOnce(a) && UsedOnce(b) && Apart(a, b)
    ensures Below(Upvals(Join(cond, a, b)), n) ==> Below(Upvals(a), n) && Below(Upvals(b), n)
    ensures Sites(Join(cond, a, b)) == Sites(a) + Sites(b)
  {
  }

  /** How a way of `and` or `or` comes about: out of the first operand, or on to the second. */
  lemma JoinWay(a: Expr, b: Expr, cond: bool, t: bool, w: Way) returns (x: Way, y: Way)
    requires w in Ways(Join(cond, a, b), t)
    ensures x in Ways(a, t)
    ensures var z := LeaveWay(ShapeFor(a), cond, x);
            if z.Out? then w == z else z.truth && y in Ways(b, z.tagged) && w == VarsWay(ShapeFor(b), y)
  {
    hide LeaveWay, VarsWay, Ways;
    JoinWays(a, b, cond, t);
    var ls := LeaveWays(cond, ShapeFor(a), Ways(a, t));
    if w in ls && w.Out? {
      x :| x in Ways(a, t) && LeaveWay(ShapeFor(a), cond, x) == w;
      y := x;
    } else {
      var g: bool :| Here(true, g) in ls && w in (set z | z in Ways(b, g) :: VarsWay(ShapeFor(b), z));
      x :| x in Ways(a, t) && LeaveWay(ShapeFor(a), cond, x) == Here(true, g);
      y :| y in Ways(b, g) && VarsWay(ShapeFor(b), y) == w;
    }
  }

  lemma {:induction false} JoinRealize(m: Env, n: nat, s: State, a: Expr, b: Expr, cond: bool, t: Option<V>, w: Way)
    returns (h: Choice)
    requires var e := Join(cond, a, b);
             UsedOnce(e) && Below(Upvals(e), n) && w in Ways(e, t.Some?) && PlainTag(t)
    ensures Realizes(m, n, s, Join(cond, a, b), t, w, h)
    decreases Join(cond, a, b), 0
  {
    hide *;
    JoinSmaller(a, b, cond);
    JoinUses(a, b, cond, n);
    var (s1, d1) := Compile(s, a);
    var s2 := GoIf(s1, d1, cond).0;
    var x, y := JoinWay(a, b, cond, t.Some?, w);
    var ha := Realize(m, n, s, a, t, x);
    var q := LeaveTakes(m, n, s, a, cond, t, x, ha);
    var hb := NONE;
    NoneWithin(b);
    TakesParts(m, n, s, a, t, x, ha);
    if q.Stays? {
      hb := Realize(m, n, s2, b, q.tag, y);
      TakesParts(m, n, s2, b, q.tag, y, hb);
    }
    h := Both(ha, hb);
    JoinTakes(m, n, s, a, b, cond, t, x, y, ha, hb, w);
  }

  lemma TakesParts(m: Env, n: nat, s: State, e: Expr, t: Option<V>, w: Way, h: Choice)
    requires Realizes(m, n, s, e, t, w, h)
    ensures Within(h, e)
    ensures Fits(Act(With(m, n, h), s, e, RegsOf(h), t), w, Eval(With(m, n, h), RegsOf(h), e))
  {
    hide Act, Eval, Fits, With, RegsOf, Within;
  }

  lemma TakesFrom(m: Env, n: nat, s: State, e: Expr, t: Option<V>, w: Way, h: Choice)
    requires Within(h, e)
    requires Fits(Act(With(m, n, h), s, e, RegsOf(h), t), w, Eval(With(m, n, h), RegsOf(h), e))
    ensures Realizes(m, n, s, e, t, w, h)
  {
    hide Act, Eval, Fits, With, RegsOf, Within;
  }

  /** Where the first operand leaves, or control goes on to the second. */
  lemma LeaveTakes(m: Env, n: nat, s: State, a: Expr, cond: bool, t: Option<V>, x: Way, h: Choice) returns (q: Outcome)
    requires Realizes(m, n, s, a, t, x, h) && PlainTag(t)
    ensures var (s1, d1) := Compile(s, a);
            q == GoIfTo(s1, d1, cond, Act(With(m, n, h), s, a, RegsOf(h), t))
    ensures var z := LeaveWay(ShapeFor(a), cond, x);
            PlainTag(q.tag) && (q.Leaves? <==> z.Out?) && (q.Stays? ==> z == Here(true, q.tag.Some?))
    ensures q.Stays? <==> Truthy(Eval(With(m, n, h), RegsOf(h), a)) == cond
  {
    hide *;
    var (s1, d1) := Compile(s, a);
    var e1, r := With(m, n, h), RegsOf(h);
    TakesParts(m, n, s, a, t, x, h);
    ShapeIs(s, a);
    ShapeTells(e1, s, a, r, t);
    StaysValue(Act(e1, s, a, r, t), x, Eval(e1, r, a));
    LeaveFits(s1, d1, cond, Act(e1, s, a, r, t), x, Eval(e1, r, a));
    q := GoIfTo(s1, d1, cond, Act(e1, s, a, r, t));
    LeavesOut(q, LeaveWay(ShapeFor(a), cond, x), Eval(e1, r, a));
    ChosenPlain(m, n, h);
    SecondPlain(e1, s, a, cond, r, t);
  }

  /** The operands use different variables and comparisons, so both can be set as needed. */
  lemma JoinTakes(m: Env, n: nat, s: State, a: Expr, b: Expr, cond: bool, t: Option<V>, x: Way, y: Way,
                  ha: Choice, hb: Choice, w: Way)
    requires Apart(a, b) && x in Ways(a, t.Some?) && Realizes(m, n, s, a, t, x, ha) && Within(hb, b)
    requires var (s1, d1) := Compile(s, a);
             var q, z := GoIfTo(s1, d1, cond, Act(With(m, n, ha), s, a, RegsOf(ha), t)), LeaveWay(ShapeFor(a), cond, x);
             && w == (if z.Out? then z else VarsWay(ShapeFor(b), y)) && (q.Leaves? <==> z.Out?)
             && (q.Stays? ==> y in Ways(b, q.tag.Some?) && Realizes(m, n, GoIf(s1, d1, cond).0, b, q.tag, y, hb))
             && (q.Stays? <==> Truthy(Eval(With(m, n, ha), RegsOf(ha), a)) == cond)
    ensures Realizes(m, n, s, Join(cond, a, b), t, w, Both(ha, hb))
  {
    hide *;
    var h := Both(ha, hb);
    var e1, r := With(m, n, h), RegsOf(h);
    var (s1, d1) := Compile(s, a);
    var s2 := GoIf(s1, d1, cond).0;
    TakesParts(m, n, s, a, t, x, ha);
    BothUses(m, n, a, b, ha, hb);
    BothWithin(a, b, ha, hb);
    TakesMore(m, n, s, a, t, x, ha, h);
    var q := GoIfTo(s1, d1, cond, Act(e1, s, a, r, t));
    if q.Stays? { TakesMore(m, n, s2, b, q.tag, y, hb, h); }
    JoinFits(e1, s, a, b, cond, r, t, x, y, Eval(e1, r, a), Eval(e1, r, b));
    JoinEval(e1, r, a, b, cond);
    TakesFrom(m, n, s, Join(cond, a, b), t, w, h);
  }

  // Values

  function UpBound(e: Expr): nat {
    match e
    case Up(u) => u + 1
    case Neg(a) => UpBound(a)
    case And(a, b) => UpBound(a) + UpBound(b)
    case Or(a, b) => UpBound(a) + UpBound(b)
    case Cmp(_, a, b) => UpBound(a) + UpBound(b)
    case _ => 0
  }

  lemma {:induction false} UpBounds(e: Expr, n: nat)
    requires UpBound(e) <= n
    ensures Below(Upvals(e), n)
  {
    match e
    case Neg(a) => UpBounds(a, n);
    case And(a, b) => UpBounds(a, n); UpBounds(b, n);
    case Or(a, b) => UpBounds(a, n); UpBounds(b, n);
    case Cmp(_, a, b) => UpBounds(a, n); UpBounds(b, n);
    case _ =>
  }

  lemma {:induction false} ScopedLocals(e: Expr, n: nat)
    requires Scoped(e, n)
    ensures Below(Locals(e), n)
  {
    match e
    case Neg(a) => ScopedLocals(a, n);
    case And(a, b) => ScopedLocals(a, n); ScopedLocals(b, n);
    case Or(a, b) => ScopedLocals(a, n); ScopedLocals(b, n);
    case Cmp(_, a, b) => ScopedLocals(a, n); ScopedLocals(b, n);
    case _ =>
  }

  // Where control comes from

  /** Control comes to the code behind `s` from the code before, or through a jump that waits for it. */
  ghost predicate Entry(s: State, p: nat) { p == |s.code| || p in s.jpc }

  /** It does, and the test of the jump has let it through. */
  ghost predicate Comes(m: Env, s: State, s2: State, p: nat, r: Regs) {
    Enters(s, s2, p, r) && (Between(s.code, p) ==> Takes(m, r, s.code[p - 1]))
  }

  /** What is known there says nothing of the variables and comparisons of the expression. */
  predicate Untold(s: State, e: Expr, p: nat) {
    if p >= |s.code| then
      !Sealed(s) ==> forall a :: a in Locals(e) ==> !(s.code[|s.code| - 1].a <= a <= s.code[|s.code| - 1].b)
    else if p > 0 then
      match s.code[p - 1]
      case Compare(op, _, _, _) => op.site !in Sites(e)
      case Test(b, _) => b !in Locals(e)
      case TestSet(_, b, _) => b !in Locals(e)
      case _ => true
    else true
  }

  /** The choice, with the test of the jump let through. */
  function Through(h: Choice, s: State, p: nat): Choice {
    if 0 < p < |s.code| then
      match s.code[p - 1]
      case Compare(op, cond, _, _) => if cond then h.(c := h.c + {op.site}) else h
      case Test(b, cond) => if cond then h.(l := h.l + {b}) else h
      case TestSet(_, b, cond) => if cond then h.(l := h.l + {b}) else h
      case _ => h
    else h
  }

  lemma ThroughUses(m: Env, n: nat, h: Choice, s: State, e: Expr, p: nat)
    requires Within(h, e) && Untold(s, e, p)
    ensures var h' := Through(h, s, p);
            SameUses(With(m, n, h), With(m, n, h'), RegsOf(h), RegsOf(h'), e)
  {
    hide Locals, Sites, Upvals;
  }

  /** The value that the jump carries then. */
  function EntryValue(s: State, p: nat): Option<V> {
    if p < |s.code| && Carries(s.code, p) then Some(if s.code[p - 1].c then Other(0) else Nil) else None
  }

  lemma EntryPlain(s: State, p: nat)
    requires Start(s) && Entry(s, p)
    ensures PlainTag(EntryValue(s, p)) && EntryValue(s, p).Some? == Carries(s.code, p) && p <= |s.code|
    ensures forall r :: EntryTag(s, p, r).Some? == Carries(s.code, p)
  {
    if p == |s.code| && p > 0 { assert OkAt(s.code, p - 1); }
    if p in s.jpc { assert Pending(s.code, p); }
  }

  /** Grown as the code of an expression grows: a LOADNIL is widened above the registers in use only. */
  ghost predicate Behind(s: State, s2: State) { Start(s) && Grown(s, s2) && Above(s, s2) }

  lemma ThroughComes(m: Env, n: nat, h: Choice, s: State, s2: State, e: Expr, p: nat)
    requires Behind(s, s2) && Scoped(e, s.nactvar) && Within(h, e) && Entry(s, p) && Untold(s, e, p)
    ensures var h' := Through(h, s, p);
            Comes(With(m, n, h'), s, s2, p, RegsOf(h')) && EntryTag(s, p, RegsOf(h')) == EntryValue(s, p)
  {
    hide Scoped, Locals, Sites, Upvals, WellFormed;
    var h' := Through(h, s, p);
    ScopedLocals(e, s.nactvar);
    if p == |s.code| {
      EndComes(m, n, h, s, s2, e);
    } else {
      assert Pending(s.code, p);
      JumpComes(m, n, h, s, e, p);
    }
  }

  lemma JumpComes(m: Env, n: nat, h: Choice, s: State, e: Expr, p: nat)
    requires p < |s.code| && Within(h, e) && Untold(s, e, p)
    ensures var h' := Through(h, s, p);
            && (Between(s.code, p) ==> Takes(With(m, n, h'), RegsOf(h'), s.code[p - 1]))
            && TagAt(s.code, p, RegsOf(h')) == EntryValue(s, p)
  {
    hide Locals, Sites, Upvals;
  }

  lemma EndComes(m: Env, n: nat, h: Choice, s: State, s2: State, e: Expr)
    requires Behind(s, s2) && Below(Locals(e), s.nactvar) && Within(h, e) && Untold(s, e, |s.code|)
    ensures Comes(With(m, n, h), s, s2, |s.code|, RegsOf(h)) && !Carries(s.code, |s.code|)
  {
    hide Locals, Sites, Upvals;
    var k := |s.code|;
    if k > 0 {
      assert OkAt(s.code, k - 1) && GrownAt(s, s2, k - 1);
      if k - 1 in s.jpc { assert Pending(s.code, k - 1); }
    }
  }

  // Values

  function ValueState(s: State, e: Expr): State { Exp2NextReg(Compile(s, e).0, Compile(s, e).1).0 }

  lemma ValueBehind(s: State, e: Expr)
    requires Start(s) && Scoped(e, s.nactvar)
    ensures Behind(s, ValueState(s, e))
  {
    hide *;
    var (s1, d1) := Compile(s, e);
    var m := Env([], ValueState(s, e).consts, NEVER);
    ValueStateIs(s, e);
    NextGrows(s1, d1);
    CompileOk(m, e, s);
    NextRegOk(m, Meant(m, s, e), s, s1, d1);
    InPlaceBehind(s, ValueState(s, e), Exp2NextReg(s1, d1).1);
  }

  lemma ValueStateIs(s: State, e: Expr)
    ensures ValueState(s, e) == Exp2NextReg(Compile(s, e).0, Compile(s, e).1).0
  {
    hide Exp2NextReg, Compile;
  }

  lemma InPlaceBehind(s0: State, s: State, d: ExpDesc)
    requires InPlace(s0, s, d)
    ensures Behind(s0, s)
  {
  }

  /** The register has the value of the expression, when control comes there. */
  ghost predicate ValueAt(m: Env, s: State, e: Expr, p: nat, r: Regs) {
    var s2 := ValueState(s, e);
    s2.consts <= m.k && Comes(m, s, s2, p, r) ==>
      p <= |s2.code| && Get(RunAt(m, s2.code, p, r).r, s.freereg) == Eval(m, r, e)
  }

  /** For all upvalues, registers and comparisons, wherever control comes from. */
  ghost predicate AlwaysValue(s: State, e: Expr) { forall m, p, r :: ValueAt(m, s, e, p, r) }

  /** No stale value is carried out, or compared; `tagged` says whether a jump carries a value to the expression. */
  predicate ValueRight(s: State, e: Expr, tagged: bool) { ComparesRight(s, e, tagged) && Exact(e, tagged) }

  lemma ValueAtIs(m: Env, s: State, e: Expr, p: nat, r: Regs)
    requires Start(s) && Scoped(e, s.nactvar) && ValueState(s, e).consts <= m.k && Comes(m, s, ValueState(s, e), p, r)
    ensures ValueAt(m, s, e, p, r) <==> ValueOf(Act(m, s, e, r, EntryTag(s, p, r))) == Eval(m, r, e)
  {
    hide Compile, Exp2NextReg, Enters, Eval, RunAt, Act, Start, EntryTag, ValueOf;
    ValueTheorem(m, e, s, p, r);
  }

  lemma ValueElse(m: Env, s: State, e: Expr, p: nat, r: Regs)
    requires !(ValueState(s, e).consts <= m.k && Comes(m, s, ValueState(s, e), p, r))
    ensures ValueAt(m, s, e, p, r)
  {
    hide Eval, RunAt, Comes, ValueState;
  }

  lemma ComesFrom(m: Env, s: State, s2: State, p: nat, r: Regs)
    requires Comes(m, s, s2, p, r)
    ensures Entry(s, p)
  {
  }

  lemma ValueAtRight(m: Env, s: State, e: Expr, p: nat, r: Regs)
    requires Start(s) && Scoped(e, s.nactvar) && (Entry(s, p) ==> ValueRight(s, e, Carries(s.code, p)))
    ensures ValueAt(m, s, e, p, r)
  {
    hide *;
    if ValueState(s, e).consts <= m.k && Comes(m, s, ValueState(s, e), p, r) {
      ComesFrom(m, s, ValueState(s, e), p, r);
      EntryPlain(s, p);
      ValueAtIs(m, s, e, p, r);
      RightParts(s, e, Carries(s.code, p));
      ActIsEval(m, s, e, r, EntryTag(s, p, r));
    } else {
      ValueElse(m, s, e, p, r);
    }
  }

  lemma RightParts(s: State, e: Expr, t: bool)
    ensures ValueRight(s, e, t) <==> ComparesRight(s, e, t) && Exact(e, t)
  {
    hide ComparesRight, Exact;
  }

  const NEVER: (CmpOp, V, V) -> bool := (_, _, _) => false

  lemma WithParts(m: Env, n: nat, h: Choice)
    ensures With(m, n, h).k == m.k
  {
  }

  lemma StaleWay(e: Expr, t: bool) returns (w: Way)
    requires !Exact(e, t)
    ensures w in Ways(e, t) && w.Out? && w.carried.Stale?
  {
    hide Ways;
    w :| w in Ways(e, t) && w.Out? && w.carried.Stale?;
  }

  lemma PlainNone()
    ensures PlainTag(None)
  {
  }

  lemma PlainParts(e: Expr, o: Outcome)
    requires PlainOut(e, o)
    ensures PlainTag(o.tag)
  {
  }

  // Wrong comparisons

  /** A way to every truth that is possible. */
  lemma {:induction false} PossibleWay(e: Expr, t: bool, truth: bool) returns (w: Way)
    requires Possible(e, truth)
    ensures w in Ways(e, t) && (if w.Here? then w.truth else w.cond) == truth
    decreases e, 1
  {
    hide NotWay, Second, LeaveWays;
    match e
    case Lit(v) => w := Here(truth, t);
    case Str(_) => w := Here(truth, t);
    case Local(_) => w := Here(truth, t);
    case Up(_) => w := Here(truth, t);
    case Neg(a) =>
      var x := PossibleWay(a, t, !truth);
      w := NotWay(ShapeFor(a), x);
      NotTruth(ShapeFor(a), x);
    case And(a, b) => JoinIs(a, b); w := JoinPossibleWay(a, b, true, t, truth);
    case Or(a, b) => JoinIs(a, b); w := JoinPossibleWay(a, b, false, t, truth);
    case Cmp(_, _, _) => w := Here(truth, false);
  }

  lemma NotTruth(sh: Shape, x: Way)
    ensures var w := NotWay(sh, x);
            (if w.Here? then w.truth else w.cond) == !(if x.Here? then x.truth else x.cond)
  {
  }

  /** A way on which control stays has the truth that the shape tells. */
  lemma {:induction false} WayTells(e: Expr, t: bool, w: Way)
    requires w in Ways(e, t) && w.Here?
    ensures (ShapeFor(e).SConst? || ShapeFor(e).STrue? ==> w.truth)
            && (ShapeFor(e).SNil? || ShapeFor(e).SFalse? ==> !w.truth)
    decreases e, 1
  {
    hide LeaveWay, LeaveWays;
    match e
    case Neg(a) =>
      var x :| x in Ways(a, t) && NotWay(ShapeFor(a), x) == w;
      WayTells(a, t, x);
    case And(a, b) => JoinIs(a, b); SecondTells(a, b, true, t, w);
    case Or(a, b) => JoinIs(a, b); SecondTells(a, b, false, t, w);
    case _ =>
  }

  lemma {:induction false} SecondTells(a: Expr, b: Expr, cond: bool, t: bool, w: Way)
    requires w in Ways(Join(cond, a, b), t) && w.Here?
    ensures var sh := ShapeFor(Join(cond, a, b));
            (sh.SConst? || sh.STrue? ==> w.truth) && (sh.SNil? || sh.SFalse? ==> !w.truth)
    decreases Join(cond, a, b), 0
  {
    hide LeaveWay, Ways;
    JoinSmaller(a, b, cond);
    var x, y := JoinWay(a, b, cond, t, w);
    WayTells(b, LeaveWay(ShapeFor(a), cond, x).tagged, y);
    JoinShape(a, b, cond);
  }

  lemma LeaveTruth(sh: Shape, cond: bool, x: Way)
    requires x.Here? ==> (sh.SConst? || sh.STrue? ==> x.truth) && (sh.SNil? || sh.SFalse? ==> !x.truth)
    ensures var z, truth := LeaveWay(sh, cond, x), if x.Here? then x.truth else x.cond;
            if truth == cond then z.Here? && z.truth else z.Out? && z.cond != cond
  {
  }

  lemma {:induction false} JoinPossibleWay(a: Expr, b: Expr, cond: bool, t: bool, truth: bool) returns (w: Way)
    requires Possible(Join(cond, a, b), truth)
    ensures w in Ways(Join(cond, a, b), t) && (if w.Here? then w.truth else w.cond) == truth
    decreases Join(cond, a, b), 0
  {
    hide Ways, Possible, LeaveWays, Second;
    JoinSmaller(a, b, cond);
    JoinPossible(a, b, cond);
    JoinWays(a, b, cond, t);
    var x := PossibleWay(a, t, if Possible(a, cond) && Possible(b, truth) then cond else !cond);
    var z := LeaveWay(ShapeFor(a), cond, x);
    if x.Here? { WayTells(a, t, x); }
    LeaveTruth(ShapeFor(a), cond, x);
    LeaveIn(cond, ShapeFor(a), Ways(a, t), x);
    var y := x;
    if z.Here? { y := PossibleWay(b, z.tagged, truth); }
    SecondIn(ShapeFor(b), LeaveWays(cond, ShapeFor(a), Ways(a, t)), Ways(b, false), Ways(b, true), z, y);
    w := if z.Out? then z else VarsWay(ShapeFor(b), y);
  }

  /** The values that the code of a comparison compares. */
  function ComparedPair(m: Env, s: State, a: Expr, b: Expr, r: Regs, t: Option<V>): (V, V) {
    var (s1, d1) := Compile(s, a);
    var s2, x := Exp2RK(s1, d1).0, RkTo(s1, d1, Act(m, s, a, r, t));
    var (s3, d3) := Compile(s2, b);
    (ValueOf(x), ValueOf(RkTo(s3, d3, Act(m, s2, b, r, x.tag))))
  }

  lemma ComparedPairIs(m: Env, s: State, a: Expr, b: Expr, r: Regs, t: Option<V>)
    ensures var (s1, d1) := Compile(s, a);
            var s2, x := Exp2RK(s1, d1).0, RkTo(s1, d1, Act(m, s, a, r, t));
            var (s3, d3) := Compile(s2, b);
            ComparedPair(m, s, a, b, r, t) == (ValueOf(x), ValueOf(RkTo(s3, d3, Act(m, s2, b, r, x.tag))))
  {
    hide Compile, Exp2RK, RkTo, Act, ValueOf;
  }

  /** The comparison that is true for these operands alone. */
  function Telling(h: Choice, op: Comparison, c: (V, V)): Choice {
    h.(told := h.told[op.site := if op.Gt? || op.Ge? then (c.1, c.0) else c])
  }

  lemma TellsApart(m: Env, n: nat, h: Choice, op: Comparison, c: (V, V), v: V, w: V)
    requires c != (v, w)
    ensures var e1 := With(m, n, Telling(h, op, c)); Compares(e1, op, c.0, c.1) != Compares(e1, op, v, w)
  {
  }

  lemma ToldUses(m: Env, n: nat, h: Choice, op: Comparison, c: (V, V), e: Expr)
    requires op.site !in Sites(e)
    ensures SameUses(With(m, n, h), With(m, n, Telling(h, op, c)), RegsOf(h), RegsOf(Telling(h, op, c)), e)
  {
  }

  /** Where the code compares other values than the language, a comparison tells them apart. */
  lemma WrongOperands(m: Env, n: nat, s: State, op: Comparison, a: Expr, b: Expr, t: Option<V>, ha: Choice, hb: Choice)
    returns (h: Choice)
    requires op.site !in Sites(a) + Sites(b) && Within(ha, a) && Within(hb, b)
    requires var h0 := Both(ha, hb);
             var e0, r := With(m, n, h0), RegsOf(h0);
             ComparedPair(e0, s, a, b, r, t) != (Eval(e0, r, a), Eval(e0, r, b))
    ensures Breaks(m, n, s, Cmp(op, a, b), t, h)
  {
    hide *;
    var h0 := Both(ha, hb);
    var e0, r0 := With(m, n, h0), RegsOf(h0);
    var c := ComparedPair(e0, s, a, b, r0, t);
    h := Telling(h0, op, c);
    var e1, r := With(m, n, h), RegsOf(h);
    ToldUses(m, n, h0, op, c, a);
    ToldUses(m, n, h0, op, c, b);
    EvalUses(e0, e1, r0, r, a);
    EvalUses(e0, e1, r0, r, b);
    var (s1, d1) := Compile(s, a);
    ActUses(e0, e1, s, a, r0, r, t);
    ActUses(e0, e1, Exp2RK(s1, d1).0, b, r0, r, RkTo(s1, d1, Act(e0, s, a, r0, t)).tag);
    ComparedPairIs(e0, s, a, b, r0, t);
    ComparedPairIs(e1, s, a, b, r, t);
    TellsApart(m, n, h0, op, c, Eval(e0, r0, a), Eval(e0, r0, b));
    CmpTruths(e1, s, op, a, b, r, t);
    BothWithin(a, b, ha, hb);
    BreaksFrom(m, n, s, Cmp(op, a, b), t, h);
  }

  lemma CmpTruths(m: Env, s: State, op: Comparison, a: Expr, b: Expr, r: Regs, t: Option<V>)
    ensures var c := ComparedPair(m, s, a, b, r, t);
            && Truthy(Seen(m, s, Cmp(op, a, b), r, t)) == Compares(m, op, c.0, c.1)
            && Truthy(Eval(m, r, Cmp(op, a, b))) == Compares(m, op, Eval(m, r, a), Eval(m, r, b))
  {
    hide Act, Exp2RK, RkTo, Compares, Compile;
    ActCmp(m, s, op, a, b, r, t);
  }

  /** With this choice the answers of the code give another truth than the language. */
  ghost predicate Breaks(m: Env, n: nat, s: State, e: Expr, t: Option<V>, h: Choice) {
    Within(h, e) && Truthy(Seen(With(m, n, h), s, e, RegsOf(h), t)) != Truthy(Eval(With(m, n, h), RegsOf(h), e))
  }

  lemma BreaksFrom(m: Env, n: nat, s: State, e: Expr, t: Option<V>, h: Choice)
    ensures Breaks(m, n, s, e, t, h) <==>
              Within(h, e)
              && Truthy(Seen(With(m, n, h), s, e, RegsOf(h), t)) != Truthy(Eval(With(m, n, h), RegsOf(h), e))
  {
    hide Within, Seen, Eval, With, RegsOf, Truthy;
  }

  lemma RkTag(s: State, d: ExpDesc, o: Outcome, w: Way, v: V)
    requires Fits(o, w, v) && PlainTag(o.tag)
    ensures var x := RkTo(s, d, o);
            ValueOf(x) == ValueOf(o) && PlainTag(x.tag) && x.tag.Some? == (Still(s, d) && w.Here? && w.tagged)
  {
    hide Still;
  }

  lemma StaleIsWrong(o: Outcome, w: Way, v: V)
    requires Fits(o, w, v) && w.Out? && w.carried.Stale? && PlainTag(o.tag)
    ensures ValueOf(o) != v
  {
  }

  /** What realizing a way gives, with the tag that the second operand of a comparison finds. */
  lemma RealizeRk(m: Env, n: nat, s: State, e: Expr, t: Option<V>, w: Way) returns (h: Choice, x: Outcome)
    requires UsedOnce(e) && Below(Upvals(e), n) && w in Ways(e, t.Some?) && PlainTag(t)
    ensures Realizes(m, n, s, e, t, w, h) && Within(h, e)
    ensures x == RkTo(Compile(s, e).0, Compile(s, e).1, Act(With(m, n, h), s, e, RegsOf(h), t))
    ensures PlainTag(x.tag) && x.tag.Some? == (Still(Compile(s, e).0, Compile(s, e).1) && w.Here? && w.tagged)
  {
    hide *;
    h := Realize(m, n, s, e, t, w);
    TakesParts(m, n, s, e, t, w, h);
    var e1, r := With(m, n, h), RegsOf(h);
    var o := Act(e1, s, e, r, t);
    ChosenPlain(m, n, h);
    ActPlain(e1, s, e, r, t);
    PlainParts(e, o);
    x := RkTo(Compile(s, e).0, Compile(s, e).1, o);
    RkTag(Compile(s, e).0, Compile(s, e).1, o, w, Eval(e1, r, e));
  }

  /** With this choice the code gives another value than the language. */
  ghost predicate Spoils(m: Env, n: nat, s: State, e: Expr, t: Option<V>, h: Choice) {
    Within(h, e) && ValueOf(Act(With(m, n, h), s, e, RegsOf(h), t)) != Eval(With(m, n, h), RegsOf(h), e)
  }

  lemma SpoilsFrom(m: Env, n: nat, s: State, e: Expr, t: Option<V>, h: Choice)
    ensures Spoils(m, n, s, e, t, h) <==>
              Within(h, e) && ValueOf(Act(With(m, n, h), s, e, RegsOf(h), t)) != Eval(With(m, n, h), RegsOf(h), e)
  {
    hide Within, Act, Eval, With, RegsOf, ValueOf;
  }

  /** A choice for more expressions spoils the value as well. */
  lemma SpoilsMore(m: Env, n: nat, s: State, e: Expr, t: Option<V>, h: Choice, h': Choice)
    requires Spoils(m, n, s, e, t, h) && SameUses(With(m, n, h), With(m, n, h'), RegsOf(h), RegsOf(h'), e)
    ensures ValueOf(Act(With(m, n, h'), s, e, RegsOf(h'), t)) != Eval(With(m, n, h'), RegsOf(h'), e)
  {
    hide *;
    SpoilsFrom(m, n, s, e, t, h);
    ActUses(With(m, n, h), With(m, n, h'), s, e, RegsOf(h), RegsOf(h'), t);
    EvalUses(With(m, n, h), With(m, n, h'), RegsOf(h), RegsOf(h'), e);
  }

  lemma RkValue(s: State, d: ExpDesc, o: Outcome)
    ensures ValueOf(RkTo(s, d, o)) == ValueOf(o)
  {
    hide Still;
  }

  /** A wrong value in the first operand. */
  lemma FirstWrong(m: Env, n: nat, s: State, op: Comparison, a: Expr, b: Expr, t: Option<V>, ha: Choice)
    returns (h: Choice)
    requires UsedOnce(Cmp(op, a, b)) && Spoils(m, n, s, a, t, ha)
    ensures Breaks(m, n, s, Cmp(op, a, b), t, h)
  {
    hide *;
    CmpOnce(op, a, b);
    SpoilsFrom(m, n, s, a, t, ha);
    NoneWithin(b);
    BothWithin(a, b, ha, NONE);
    ComparedPairIs(With(m, n, ha), s, a, b, RegsOf(ha), t);
    RkValue(Compile(s, a).0, Compile(s, a).1, Act(With(m, n, ha), s, a, RegsOf(ha), t));
    h := WrongOperands(m, n, s, op, a, b, t, ha, NONE);
  }

  /** A wrong value in the second operand, which control may come to through a jump that carries a value. */
  lemma SecondWrong(m: Env, n: nat, s: State, op: Comparison, a: Expr, b: Expr, t: Option<V>, x: Way, ha: Choice,
                    xa: Outcome, hb: Choice)
    returns (h: Choice)
    requires UsedOnce(Cmp(op, a, b)) && Realizes(m, n, s, a, t, x, ha)
    requires xa == RkTo(Compile(s, a).0, Compile(s, a).1, Act(With(m, n, ha), s, a, RegsOf(ha), t))
    requires Spoils(m, n, Exp2RK(Compile(s, a).0, Compile(s, a).1).0, b, xa.tag, hb)
    ensures Breaks(m, n, s, Cmp(op, a, b), t, h)
  {
    hide *;
    CmpOnce(op, a, b);
    TakesParts(m, n, s, a, t, x, ha);
    var (s1, d1) := Compile(s, a);
    var s2 := Exp2RK(s1, d1).0;
    SpoilsFrom(m, n, s2, b, xa.tag, hb);
    var h0 := Both(ha, hb);
    var e0, r := With(m, n, h0), RegsOf(h0);
    BothUses(m, n, a, b, ha, hb);
    TakesMore(m, n, s, a, t, x, ha, h0);
    SpoilsMore(m, n, s2, b, xa.tag, hb, h0);
    ComparedPairIs(e0, s, a, b, r, t);
    var (s3, d3) := Compile(s2, b);
    RkValue(s3, d3, Act(e0, s2, b, r, xa.tag));
    h := WrongOperands(m, n, s, op, a, b, t, ha, hb);
  }

  lemma CmpOnce(op: Comparison, a: Expr, b: Expr)
    requires UsedOnce(Cmp(op, a, b))
    ensures UsedOnce(a) && UsedOnce(b) && Apart(a, b) && op.site !in Sites(a) + Sites(b)
  {
  }

  lemma AfterWay(s: State, a: Expr, t: bool, g: bool) returns (x: Way)
    requires g in AfterFirst(s, a, t)
    ensures x in Ways(a, t) && g == (Still(Compile(s, a).0, Compile(s, a).1) && x.Here? && x.tagged)
  {
    hide Ways, Still, Compile;
    x :| x in Ways(a, t) && g == (Still(Compile(s, a).0, Compile(s, a).1) && x.Here? && x.tagged);
  }

  /** A wrong comparison whose answer matters gives the whole condition the wrong truth. */
  lemma {:induction false} Break(m: Env, n: nat, s: State, e: Expr, t: Option<V>) returns (h: Choice)
    requires OperandsShown(e) && UsedOnce(e) && Below(Upvals(e), n) && !BranchRight(s, e, t.Some?) && PlainTag(t)
    ensures Breaks(m, n, s, e, t, h)
    decreases e, 1
  {
    hide GoIf, LeaveWays, Ways, Possible, Compile, Exact, AfterFirst, With, RegsOf, ComparesRight, Exp2RK;
    match e
    case Neg(a) => h := Break(m, n, s, a, t);
    case And(a, b) => JoinIs(a, b); h := JoinBreak(m, n, s, a, b, true, t);
    case Or(a, b) => JoinIs(a, b); h := JoinBreak(m, n, s, a, b, false, t);
    case Cmp(op, a, b) =>
      if !(ComparesRight(s, a, t.Some?) && Exact(a, t.Some?)) {
        var ha := Spoil(m, n, s, a, t);
        h := FirstWrong(m, n, s, op, a, b, t, ha);
      } else {
        var g := WrongAfter(s, op, a, b, t.Some?);
        var x := AfterWay(s, a, t.Some?, g);
        var ha, xa := RealizeRk(m, n, s, a, t, x);
        var hb := Spoil(m, n, Exp2RK(Compile(s, a).0, Compile(s, a).1).0, b, xa.tag);
        h := SecondWrong(m, n, s, op, a, b, t, x, ha, xa, hb);
      }
  }

  lemma WrongAfter(s: State, op: Comparison, a: Expr, b: Expr, t: bool) returns (g: bool)
    requires !ComparesRight(s, Cmp(op, a, b), t) && ComparesRight(s, a, t) && Exact(a, t)
    ensures var s2 := Exp2RK(Compile(s, a).0, Compile(s, a).1).0;
            g in AfterFirst(s, a, t) && !(ComparesRight(s2, b, g) && Exact(b, g))
  {
    hide Compile, Exact, AfterFirst, Exp2RK;
    var s2 := Exp2RK(Compile(s, a).0, Compile(s, a).1).0;
    g :| g in AfterFirst(s, a, t) && !(ComparesRight(s2, b, g) && Exact(b, g));
  }

  /**
    A jump that can carry a stale value out, or a wrong comparison that nothing hides, gives the expression a wrong
    value.
   */
  lemma {:induction false} Spoil(m: Env, n: nat, s: State, e: Expr, t: Option<V>) returns (h: Choice)
    requires UsedOnce(e) && Below(Upvals(e), n) && PlainTag(t)
    requires !Exact(e, t.Some?) || (Shown(e) && !ComparesRight(s, e, t.Some?))
    ensures Spoils(m, n, s, e, t, h)
    decreases e, 2
  {
    hide *;
    if !Exact(e, t.Some?) {
      var w := StaleWay(e, t.Some?);
      h := Realize(m, n, s, e, t, w);
      TakesParts(m, n, s, e, t, w, h);
      ChosenPlain(m, n, h);
      ActPlain(With(m, n, h), s, e, RegsOf(h), t);
      PlainParts(e, Act(With(m, n, h), s, e, RegsOf(h), t));
      StaleIsWrong(Act(With(m, n, h), s, e, RegsOf(h), t), w, Eval(With(m, n, h), RegsOf(h), e));
    } else {
      if BranchRight(s, e, t.Some?) { ShownBranch(s, e, t.Some?); }
      ShownOperands(e);
      h := Break(m, n, s, e, t);
      BreaksFrom(m, n, s, e, t, h);
      var w := SeenSound(With(m, n, h), s, e, RegsOf(h), t);
      ExactWay(e, t.Some?, w);
      ValueFits(Act(With(m, n, h), s, e, RegsOf(h), t), w, Seen(With(m, n, h), s, e, RegsOf(h), t));
    }
    SpoilsFrom(m, n, s, e, t, h);
  }

  lemma ExactWay(e: Expr, t: bool, w: Way)
    requires Exact(e, t) && w in Ways(e, t)
    ensures !(w.Out? && w.carried.Stale?)
  {
    hide Ways;
  }

  lemma {:induction false} JoinBreak(m: Env, n: nat, s: State, a: Expr, b: Expr, cond: bool, t: Option<V>)
    returns (h: Choice)
    requires var e := Join(cond, a, b);
             OperandsShown(e) && UsedOnce(e) && Below(Upvals(e), n) && !BranchRight(s, e, t.Some?) && PlainTag(t)
    ensures Breaks(m, n, s, Join(cond, a, b), t, h)
    decreases Join(cond, a, b), 0
  {
    hide *;
    JoinSmaller(a, b, cond);
    JoinBranch(s, a, b, cond, t.Some?);
    JoinUses(a, b, cond, n);
    var (s1, d1) := Compile(s, a);
    var s2 := GoIf(s1, d1, cond).0;
    if Possible(b, cond) && !BranchRight(s, a, t.Some?) {
      var ha := Break(m, n, s, a, t);
      h := LeftBreaks(m, n, s, a, b, cond, t, ha);
    } else {
      var u: bool :| Here(true, u) in LeaveWays(cond, ShapeFor(a), Ways(a, t.Some?)) && !BranchRight(s2, b, u);
      var x := LeaveFrom(cond, ShapeFor(a), Ways(a, t.Some?), Here(true, u));
      var ha := Realize(m, n, s, a, t, x);
      var q := LeaveTakes(m, n, s, a, cond, t, x, ha);
      var hb := Break(m, n, s2, b, q.tag);
      h := RightBreaks(m, n, s, a, b, cond, t, x, ha, q, hb);
    }
  }

  lemma LeaveFrom(cond: bool, sh: Shape, l: set<Way>, z: Way) returns (x: Way)
    requires z in LeaveWays(cond, sh, l)
    ensures x in l && LeaveWay(sh, cond, x) == z
  {
    hide LeaveWay;
    x :| x in l && LeaveWay(sh, cond, x) == z;
  }

  /** The left operand has the wrong truth: the right one is made to show it. */
  lemma LeftBreaks(m: Env, n: nat, s: State, a: Expr, b: Expr, cond: bool, t: Option<V>, ha: Choice)
    returns (h: Choice)
    requires Apart(a, b) && UsedOnce(b) && Below(Upvals(b), n) && PlainTag(t)
    requires Breaks(m, n, s, a, t, ha) && Possible(b, cond)
    ensures Breaks(m, n, s, Join(cond, a, b), t, h)
  {
    hide *;
    BreaksFrom(m, n, s, a, t, ha);
    var (s1, d1) := Compile(s, a);
    var s2 := GoIf(s1, d1, cond).0;
    var e0, r0 := With(m, n, ha), RegsOf(ha);
    var x := SecondSeen(e0, s, a, cond, r0, t);
    ChosenPlain(m, n, ha);
    SecondPlain(e0, s, a, cond, r0, t);
    PlainNone();
    var q := GoIfTo(s1, d1, cond, Act(e0, s, a, r0, t));
    var tb := if q.Stays? then q.tag else None;
    var w := PossibleWay(b, tb.Some?, cond);
    var hb := Realize(m, n, s2, b, tb, w);
    TakesParts(m, n, s2, b, tb, w, hb);
    RealizedTruth(m, n, s2, b, tb, w, hb);
    h := Both(ha, hb);
    var e1, r := With(m, n, h), RegsOf(h);
    BothUses(m, n, a, b, ha, hb);
    BothWithin(a, b, ha, hb);
    SeenUses(e0, e1, s, a, r0, r, t);
    ActUses(e0, e1, s, a, r0, r, t);
    EvalUses(e0, e1, r0, r, a);
    SeenUses(With(m, n, hb), e1, s2, b, RegsOf(hb), r, tb);
    EvalUses(With(m, n, hb), e1, RegsOf(hb), r, b);
    SeenJoin(e1, s, a, b, cond, r, t);
    JoinEval(e1, r, a, b, cond);
    BreaksFrom(m, n, s, Join(cond, a, b), t, h);
  }

  lemma RealizedTruth(m: Env, n: nat, s: State, e: Expr, t: Option<V>, w: Way, h: Choice)
    requires Realizes(m, n, s, e, t, w, h)
    ensures var truth := if w.Here? then w.truth else w.cond;
            && Truthy(Eval(With(m, n, h), RegsOf(h), e)) == truth
            && Truthy(Seen(With(m, n, h), s, e, RegsOf(h), t)) == truth
  {
    hide *;
    var e1, r := With(m, n, h), RegsOf(h);
    TakesParts(m, n, s, e, t, w, h);
    var z := SeenSound(e1, s, e, r, t);
    TruthFits(Act(e1, s, e, r, t), z, Seen(e1, s, e, r, t));
    TruthFits(Act(e1, s, e, r, t), w, Eval(e1, r, e));
    WayTruth(Act(e1, s, e, r, t), w, Eval(e1, r, e));
  }

  lemma WayTruth(o: Outcome, w: Way, v: V)
    requires Fits(o, w, v)
    ensures Truthy(v) == if w.Here? then w.truth else w.cond
  {
  }

  /** The right operand has the wrong truth: the left one is made to lead to it. */
  lemma RightBreaks(m: Env, n: nat, s: State, a: Expr, b: Expr, cond: bool, t: Option<V>, x: Way, ha: Choice,
                    q: Outcome, hb: Choice)
    returns (h: Choice)
    requires Apart(a, b) && Realizes(m, n, s, a, t, x, ha) && q.Stays?
    requires var (s1, d1) := Compile(s, a);
             && q == GoIfTo(s1, d1, cond, Act(With(m, n, ha), s, a, RegsOf(ha), t))
             && Breaks(m, n, GoIf(s1, d1, cond).0, b, q.tag, hb)
    requires Truthy(Eval(With(m, n, ha), RegsOf(ha), a)) == cond
    ensures Breaks(m, n, s, Join(cond, a, b), t, h)
  {
    hide *;
    var (s1, d1) := Compile(s, a);
    var s2 := GoIf(s1, d1, cond).0;
    var e0, r0 := With(m, n, ha), RegsOf(ha);
    TakesParts(m, n, s, a, t, x, ha);
    BreaksFrom(m, n, s2, b, q.tag, hb);
    var z := SecondSeen(e0, s, a, cond, r0, t);
    h := Both(ha, hb);
    var e1, r := With(m, n, h), RegsOf(h);
    BothUses(m, n, a, b, ha, hb);
    BothWithin(a, b, ha, hb);
    SeenUses(e0, e1, s, a, r0, r, t);
    ActUses(e0, e1, s, a, r0, r, t);
    EvalUses(e0, e1, r0, r, a);
    SeenUses(With(m, n, hb), e1, s2, b, RegsOf(hb), r, q.tag);
    EvalUses(With(m, n, hb), e1, RegsOf(hb), r, b);
    SeenJoin(e1, s, a, b, cond, r, t);
    JoinEval(e1, r, a, b, cond);
    BreaksFrom(m, n, s, Join(cond, a, b), t, h);
  }

  // The exact conditions

  /** Where a condition fails for an entry, some registers and comparisons show it. */
  lemma ValueFails(s: State, e: Expr, p: nat)
    requires Start(s) && Scoped(e, s.nactvar) && UsedOnce(e) && Entry(s, p) && Untold(s, e, p)
    requires var t := Carries(s.code, p); !Exact(e, t) || (Shown(e) && !ComparesRight(s, e, t))
    ensures !AlwaysValue(s, e)
  {
    hide *;
    var n, s2 := UpBound(e), ValueState(s, e);
    var m := Env([], s2.consts, NEVER);
    UpBounds(e, n);
    EntryPlain(s, p);
    ValueBehind(s, e);
    var t := EntryValue(s, p);
    var h := Spoil(m, n, s, e, t);
    SpoilsFrom(m, n, s, e, t, h);
    var h' := Through(h, s, p);
    ThroughUses(m, n, h, s, e, p);
    SpoilsMore(m, n, s, e, t, h, h');
    ThroughComes(m, n, h, s, s2, e, p);
    WithParts(m, n, h');
    ValueAtIs(With(m, n, h'), s, e, p, RegsOf(h'));
    NotAlways(With(m, n, h'), s, e, p, RegsOf(h'));
  }

  lemma NotAlways(m: Env, s: State, e: Expr, p: nat, r: Regs)
    requires !ValueAt(m, s, e, p, r)
    ensures !AlwaysValue(s, e)
  {
    hide ValueAt;
  }

  lemma AlwaysFrom(s: State, e: Expr)
    requires forall m, p, r :: ValueAt(m, s, e, p, r)
    ensures AlwaysValue(s, e)
  {
  }

  /** Some jump to here carries a value. */
  ghost predicate Carried(s: State) { exists j :: j in s.jpc && Carries(s.code, j) }

  /** What is known on the ways in says nothing of the variables and comparisons of the expression. */
  ghost predicate Open(s: State, e: Expr) { forall p :: Entry(s, p) ==> Untold(s, e, p) }

  lemma OpenAt(s: State, e: Expr, p: nat)
    requires Open(s, e) && Entry(s, p)
    ensures Untold(s, e, p)
  {
  }

  lemma EndEntry(s: State)
    requires Start(s)
    ensures Entry(s, |s.code|) && !Carries(s.code, |s.code|)
  {
    if |s.code| > 0 { assert OkAt(s.code, |s.code| - 1); }
  }

  lemma CarriedEntry(s: State) returns (p: nat)
    requires Carried(s)
    ensures Entry(s, p) && Carries(s.code, p)
  {
    p :| p in s.jpc && Carries(s.code, p);
  }

  lemma CarriedFrom(s: State, p: nat)
    requires Start(s) && Entry(s, p) && Carries(s.code, p)
    ensures Carried(s)
  {
    EndEntry(s);
  }

  /**
    For an expression that uses every variable and every comparison once, and in which nothing hides a comparison or
    all compare the right values: from every way in, its code always gives its value exactly when no comparison in it
    can get, and no jump out of it can carry, a stale value; where a jump to it carries a value, for that as well.
   */
  lemma ValueExact(s: State, e: Expr)
    requires Start(s) && Scoped(e, s.nactvar) && UsedOnce(e) && Open(s, e)
    requires Shown(e) || (ComparesRight(s, e, false) && (Carried(s) ==> ComparesRight(s, e, true)))
    ensures AlwaysValue(s, e) <==> ValueRight(s, e, false) && (Carried(s) ==> ValueRight(s, e, true))
  {
    hide *;
    RightParts(s, e, false);
    RightParts(s, e, true);
    if ValueRight(s, e, false) && (Carried(s) ==> ValueRight(s, e, true)) {
      forall m, p: nat, r
        ensures ValueAt(m, s, e, p, r)
      {
        if Entry(s, p) && Carries(s.code, p) { CarriedFrom(s, p); }
        ValueAtRight(m, s, e, p, r);
      }
      AlwaysFrom(s, e);
    } else if !ValueRight(s, e, false) {
      EndEntry(s);
      OpenAt(s, e, |s.code|);
      ValueFails(s, e, |s.code|);
    } else {
      var p := CarriedEntry(s);
      OpenAt(s, e, p);
      ValueFails(s, e, p);
    }
  }

  // Branches

  ghost predicate BranchAt(m: Env, s: State, e: Expr, p: nat, r: Regs) {
    var (s1, exits) := Condition(s, e);
    s1.consts <= m.k && Comes(m, s, s1, p, r) ==>
      p <= |s1.code| && Branches(s1, exits, Truthy(Eval(m, r, e)), RunAt(m, s1.code, p, r))
  }

  /** For all upvalues, registers and comparisons, wherever control comes from, the code branches on the truth. */
  ghost predicate AlwaysBranches(s: State, e: Expr) { forall m, p, r :: BranchAt(m, s, e, p, r) }

  lemma BranchAtIs(m: Env, s: State, e: Expr, p: nat, r: Regs)
    requires Start(s) && Scoped(e, s.nactvar) && Condition(s, e).0.consts <= m.k && Comes(m, s, Condition(s, e).0, p, r)
    ensures BranchAt(m, s, e, p, r) <==> TruthOf(Act(m, s, e, r, EntryTag(s, p, r))) == Truthy(Eval(m, r, e))
  {
    hide Condition, Act, Eval, RunAt, Enters, Start, TruthOf, EntryTag;
    ConditionTheorem(m, e, s, p, r);
  }

  lemma BranchElse(m: Env, s: State, e: Expr, p: nat, r: Regs)
    requires !(Condition(s, e).0.consts <= m.k && Comes(m, s, Condition(s, e).0, p, r))
    ensures BranchAt(m, s, e, p, r)
  {
    hide Condition, Eval, RunAt, Comes;
  }

  lemma BranchAtRight(m: Env, s: State, e: Expr, p: nat, r: Regs)
    requires Start(s) && Scoped(e, s.nactvar) && (Entry(s, p) ==> BranchRight(s, e, Carries(s.code, p)))
    ensures BranchAt(m, s, e, p, r)
  {
    hide *;
    if Condition(s, e).0.consts <= m.k && Comes(m, s, Condition(s, e).0, p, r) {
      ComesFrom(m, s, Condition(s, e).0, p, r);
      EntryPlain(s, p);
      BranchAtIs(m, s, e, p, r);
      BranchSuffices(m, s, e, r, EntryTag(s, p, r));
    } else {
      BranchElse(m, s, e, p, r);
    }
  }

  lemma ConditionBehind(s: State, e: Expr)
    requires Start(s) && Scoped(e, s.nactvar)
    ensures Behind(s, Condition(s, e).0)
  {
    hide *;
    var (s0, d0) := Compile(s, e);
    var d1 := if d0.k.VNIL? then d0.(k := VFALSE) else d0;
    var (s1, d2) := GoIf(s0, d1, true);
    var m := Env([], s1.consts, NEVER);
    ConditionIs(s, e);
    GoIfGrows(s0, d1, true);
    CompileOk(m, e, s);
    var f: Meaning := if d0.k.VNIL? then Falsely(Meant(m, s, e)) else Meant(m, s, e);
    if d0.k.VNIL? { NilIsFalse(m, Meant(m, s, e), s, s0, d0); }
    GoIfOk(m, f, s, s0, d1, true);
    BaseBehind(s, s1, d2.(k := VTRUE));
  }

  lemma BaseBehind(s0: State, s: State, d: ExpDesc)
    requires Base(s0, s, d) && Above(s0, s)
    ensures Behind(s0, s)
  {
  }

  lemma BranchFails(s: State, e: Expr, p: nat)
    requires Start(s) && Scoped(e, s.nactvar) && UsedOnce(e) && Entry(s, p) && Untold(s, e, p)
    requires OperandsShown(e) && !BranchRight(s, e, Carries(s.code, p))
    ensures !AlwaysBranches(s, e)
  {
    hide *;
    var n, s2 := UpBound(e), Condition(s, e).0;
    var m := Env([], s2.consts, NEVER);
    UpBounds(e, n);
    EntryPlain(s, p);
    ConditionBehind(s, e);
    var t := EntryValue(s, p);
    var h := Break(m, n, s, e, t);
    BreaksFrom(m, n, s, e, t, h);
    var h' := Through(h, s, p);
    var e0, r0, e1, r := With(m, n, h), RegsOf(h), With(m, n, h'), RegsOf(h');
    ThroughUses(m, n, h, s, e, p);
    SeenUses(e0, e1, s, e, r0, r, t);
    EvalUses(e0, e1, r0, r, e);
    ThroughComes(m, n, h, s, s2, e, p);
    WithParts(m, n, h');
    var w := SeenSound(e1, s, e, r, t);
    TruthFits(Act(e1, s, e, r, t), w, Seen(e1, s, e, r, t));
    BranchAtIs(e1, s, e, p, r);
    NotBranches(e1, s, e, p, r);
  }

  lemma NotBranches(m: Env, s: State, e: Expr, p: nat, r: Regs)
    requires !BranchAt(m, s, e, p, r)
    ensures !AlwaysBranches(s, e)
  {
    hide BranchAt;
  }

  lemma AlwaysBranchesFrom(s: State, e: Expr)
    requires forall m, p, r :: BranchAt(m, s, e, p, r)
    ensures AlwaysBranches(s, e)
  {
  }

  /**
    For a condition that uses every variable and every comparison once, and in which nothing hides a comparison
    within an operand of another: from every way in, its code always branches on its truth exactly when no comparison
    whose answer matters can get a stale operand; where a jump to it carries a value, for that as well.
   */
  lemma BranchExact(s: State, e: Expr)
    requires Start(s) && Scoped(e, s.nactvar) && UsedOnce(e) && Open(s, e) && OperandsShown(e)
    ensures AlwaysBranches(s, e) <==> BranchRight(s, e, false) && (Carried(s) ==> BranchRight(s, e, true))
  {
    hide *;
    if BranchRight(s, e, false) && (Carried(s) ==> BranchRight(s, e, true)) {
      forall m, p: nat, r
        ensures BranchAt(m, s, e, p, r)
      {
        if Entry(s, p) && Carries(s.code, p) { CarriedFrom(s, p); }
        BranchAtRight(m, s, e, p, r);
      }
      AlwaysBranchesFrom(s, e);
    } else if !BranchRight(s, e, false) {
      EndEntry(s);
      OpenAt(s, e, |s.code|);
      BranchFails(s, e, |s.code|);
    } else {
      var p := CarriedEntry(s);
      OpenAt(s, e, p);
      BranchFails(s, e, p);
    }
  }


  // Expressions that are compiled wrongly, and some that are not

  /** `(a or b) and (false and c)`. */
  const SPOILT := And(Or(Local(0), Local(1)), And(Lit(Bool(false)), Local(2)))

  const ENTRY := State([], [], -1, 3, 3, [])

  lemma EntryStarts()
    ensures Start(ENTRY) && Sealed(ENTRY) && forall s, r :: Enters(ENTRY, s, 0, r) <==> EntryRegs(ENTRY, s, r)
  {
  }

  lemma SpoiltOr(m: Env, s: State, r: Regs, t: Option<V>)
    requires Truthy(Get(r, 0))
    ensures Act(m, s, Or(Local(0), Local(1)), r, t) == Leaves(true, Some(Get(r, 0)))
  {
    hide GoIf, Act;
    JoinIs(Local(0), Local(1));
    ActJoin(m, s, Local(0), Local(1), false, r, t);
    assert Act(m, s, Local(0), r, t) == Stays(Get(r, 0), t) by { LocalAct(m, s, 0, r, t); }
  }

  lemma LocalAct(m: Env, s: State, a: nat, r: Regs, t: Option<V>)
    ensures Act(m, s, Local(a), r, t) == Stays(Get(r, a), t)
  {
  }

  /** A literal that always jumps hands on what is carried to it. */
  lemma StopAct(m: Env, s: State, b: Expr, r: Regs, t: Option<V>)
    ensures Act(m, s, And(Lit(Bool(false)), b), r, t) == Leaves(false, t)
  {
    hide GoIf;
  }

  /** In any state: where `a` is true, the code gives `a`, and the language `false`. */
  lemma SpoiltAct(m: Env, s: State, r: Regs, t: Option<V>)
    requires Truthy(Get(r, 0))
    ensures Act(m, s, SPOILT, r, t) == Leaves(false, Some(Get(r, 0))) && Eval(m, r, SPOILT) == Bool(false)
  {
    hide GoIf, Act, LeaveTo, Compile;
    var a, b := Or(Local(0), Local(1)), And(Lit(Bool(false)), Local(2));
    JoinIs(a, b);
    ActJoin(m, s, a, b, true, r, t);
    SpoiltOr(m, s, r, t);
    var (s1, d1) := Compile(s, a);
    BroughtHere(s1, d1, Leaves(true, Some(Get(r, 0))));
    StopAct(m, GoIf(s1, d1, true).0, Local(2), r, Some(Get(r, 0)));
    JoinEval(m, r, a, b, true);
    JoinEval(m, r, Lit(Bool(false)), Local(2), true);
  }

  lemma BroughtHere(s: State, d: ExpDesc, o: Outcome)
    requires o.Leaves? && o.cond
    ensures GoIfTo(s, d, true, o) == Stays(Bool(true), o.tag)
  {
    hide DischargeVars;
  }

  /** The jump that carries `a` was merged into the list of the literal: the register gets `a`, not `false`. */
  lemma MergedJumpSpoilsValue(m: Env, r: Regs)
    requires var (s1, d1) := Compile(ENTRY, SPOILT);
             var s2 := Exp2NextReg(s1, d1).0;
             Truthy(Get(r, 0)) && s2.consts <= m.k && EntryRegs(ENTRY, s2, r)
    ensures var (s1, d1) := Compile(ENTRY, SPOILT);
            var s2 := Exp2NextReg(s1, d1).0;
            Get(RunAt(m, s2.code, 0, r).r, 3) == Get(r, 0) && Eval(m, r, SPOILT) == Bool(false)
    ensures !Exact(SPOILT, false)
  {
    hide *;
    EntryStarts();
    SpoiltScoped();
    SpoiltAct(m, ENTRY, r, EntryTag(ENTRY, 0, r));
    ValueTheorem(m, SPOILT, ENTRY, 0, r);
    EntryIs();
    CarriedValue(Get(r, 0));
    SpoiltStale(m, r);
  }

  lemma CarriedValue(v: V)
    ensures ValueOf(Leaves(false, Some(v))) == v
  {
  }

  lemma EntryIs()
    ensures ENTRY.freereg == 3 && |ENTRY.code| == 0 && ENTRY.nactvar == 3
  {
  }

  lemma SpoiltScoped()
    ensures Scoped(SPOILT, 3) && ENTRY.nactvar == 3 && NoComparisons(SPOILT)
  {
  }

  lemma SpoiltStale(m: Env, r: Regs)
    requires Truthy(Get(r, 0))
    ensures !Exact(SPOILT, false)
  {
    hide *;
    SpoiltScoped();
    var q: Regs := map[0 := Other(0)];
    NumberTrue(q);
    NoComparisonsRight(ENTRY, SPOILT, false);
    SpoiltAct(m, ENTRY, q, None);
    ActIsEval(m, ENTRY, SPOILT, q, None);
    CarriedValue(Other(0));
  }

  lemma NumberTrue(q: Regs)
    requires q == map[0 := Other(0)]
    ensures Truthy(Get(q, 0)) && Get(q, 0) == Other(0)
  {
  }

  /** `((a or b) and (false and c)) == false`, as a condition: where `a` is true the code takes the wrong branch. */
  lemma SpoiltConditionFails(m: Env, s: State, r: Regs)
    requires Truthy(Get(r, 0)) && forall x, y :: m.rel(EQ(0), x, y) <==> x == y
    ensures var e := Cmp(Eq(0), SPOILT, Lit(Bool(false)));
            !TruthOf(Act(m, s, e, r, None)) && Eval(m, r, e) == Bool(true) && !BranchRight(s, e, false)
  {
    hide Act, Compile, Exp2RK, Still, BranchRight;
    SpoiltAct(m, s, r, None);
    ActCmp(m, s, Eq(0), SPOILT, Lit(Bool(false)), r, None);
    var (s1, d1) := Compile(s, SPOILT);
    LitAct(m, Exp2RK(s1, d1).0, Bool(false), r, RkTo(s1, d1, Act(m, s, SPOILT, r, None)).tag);
    assert Compares(m, Eq(0), Get(r, 0), Bool(false)) == false;
    SpoiltScoped();
    var e := Cmp(Eq(0), SPOILT, Lit(Bool(false)));
    if BranchRight(s, e, false) { BranchSuffices(m, s, e, r, None); }
  }

  /** On the left of `and false` the same comparison does no harm. */
  lemma SpoiltMasked(s: State, t: bool)
    ensures BranchRight(s, And(Cmp(Eq(0), SPOILT, Lit(Bool(false))), Lit(Bool(false))), t)
  {
    hide Compile, GoIf, LeaveWays, Ways, Exact, AfterFirst;
  }

  lemma LitAct(m: Env, s: State, v: V, r: Regs, t: Option<V>)
    ensures Act(m, s, Lit(v), r, t) == Stays(v, t)
  {
  }

  /** Under an `or` the same expression does no harm: its false exits lead to the second operand. */
  lemma SpoiltUnderOr(tagged: bool)
    ensures Exact(Or(SPOILT, Local(3)), tagged)
  {
    hide Ways;
    JoinIs(SPOILT, Local(3));
    JoinWays(SPOILT, Local(3), false, tagged);
    SpoiltFalse(tagged);
    forall w | w in Ways(Or(SPOILT, Local(3)), tagged)
      ensures !w.Out?
    {
      var x, y := JoinWay(SPOILT, Local(3), false, tagged, w);
      LocalHere(3, LeaveWay(ShapeFor(SPOILT), false, x).Here? && LeaveWay(ShapeFor(SPOILT), false, x).tagged);
    }
  }

  lemma LocalHere(a: nat, t: bool)
    ensures forall w :: w in Ways(Local(a), t) ==> w.Here?
  {
  }

  /** Every way out of it is one on which it is false. */
  lemma SpoiltFalse(tagged: bool)
    ensures forall w :: w in Ways(SPOILT, tagged) ==> w.Out? && !w.cond
  {
    hide Ways;
    var a, b := Or(Local(0), Local(1)), And(Lit(Bool(false)), Local(2));
    JoinIs(a, b);
    JoinIs(Lit(Bool(false)), Local(2));
    forall w | w in Ways(SPOILT, tagged)
      ensures w.Out? && !w.cond
    {
      var x, y := JoinWay(a, b, true, tagged, w);
      var z := LeaveWay(ShapeFor(a), true, x);
      if z.Here? {
        var x1, y1 := JoinWay(Lit(Bool(false)), Local(2), true, z.tagged, y);
        LitWays(false, z.tagged);
      }
    }
  }

  lemma LitWays(b: bool, t: bool)
    ensures Ways(Lit(Bool(b)), t) == {Here(b, t)}
  {
  }

  /** `if a then end`, and the state after it: the jump over the block leads to the next statement, and carries `a`. */
  const AFTER_IF := State([TestSet(None, 0, false), Jmp(NO_JUMP)], [1], 2, 3, 3, [])

  lemma IfThenEnd()
    ensures var (s, exits) := Condition(ENTRY, Local(0)); PatchToHere(s, exits) == AFTER_IF
    ensures Start(AFTER_IF) && forall s, r :: Enters(AFTER_IF, s, 1, r)
  {
    hide *;
    IfCondition();
    IfStarts();
  }

  lemma IfCondition()
    ensures var (s, exits) := Condition(ENTRY, Local(0)); PatchToHere(s, exits) == AFTER_IF
  {
    hide PatchList, FreeExp;
    var d, i := ExpDesc(VNONRELOC(0), [], []), TestSet(None, 0, false);
    IfJump(i);
    assert FreeExp(ENTRY, d) == ENTRY by { EntryFree(d); }
    assert LeaveUnless(ENTRY, d, true) == (State([i, Jmp(NO_JUMP)], [], -1, 3, 3, []), [1]);
    assert [] + [1] == [1];
  }

  lemma EntryFree(d: ExpDesc)
    requires d.k == VNONRELOC(0)
    ensures FreeExp(ENTRY, d) == ENTRY
  {
  }

  lemma IfJump(i: Ins)
    ensures CondJump(ENTRY, i) == State([i, Jmp(NO_JUMP)], [], -1, 3, 3, [])
  {
    assert Emit(ENTRY, i).code == [i];
  }

  lemma IfStarts()
    ensures Start(AFTER_IF) && forall s, r :: Enters(AFTER_IF, s, 1, r)
  {
    assert AFTER_IF.jpc[0] == 1;
  }

  /**
    `if a then end local x = false and b`: where `a` is nil, `x` gets nil, and not `false`. Only the jump makes it
    wrong.
   */
  lemma EarlierJumpSpoilsValue(m: Env, r: Regs)
    requires Get(r, 0) == Nil && ValueState(AFTER_IF, And(Lit(Bool(false)), Local(1))).consts <= m.k
    ensures var e := And(Lit(Bool(false)), Local(1));
            var s2 := ValueState(AFTER_IF, e);
            RunAt(m, AFTER_IF.code, 0, r) == Exit(1, r) && 1 <= |s2.code| && Get(RunAt(m, s2.code, 1, r).r, 3) == Nil
                && Eval(m, r, e) == Bool(false)
    ensures var e := And(Lit(Bool(false)), Local(1));
            ValueRight(AFTER_IF, e, false) && !ValueRight(AFTER_IF, e, true) && Carried(AFTER_IF)
  {
    hide Compile, Exp2NextReg, Start, Enters, RunAt, Act, Ways, ComparesRight;
    IfThenEnd();
    var e := And(Lit(Bool(false)), Local(1));
    StopAct(m, AFTER_IF, Local(1), r, Some(Nil));
    assert EntryTag(AFTER_IF, 1, r) == Some(Nil);
    ValueTheorem(m, e, AFTER_IF, 1, r);
    IfRuns(m, r);
    StopWays(Local(1), false);
    StopWays(Local(1), true);
    NoComparisonsRight(AFTER_IF, e, false);
    IfCarried();
  }

  lemma IfCarried()
    ensures Carried(AFTER_IF)
  {
    assert 1 in AFTER_IF.jpc;
  }

  lemma StopWays(b: Expr, t: bool)
    ensures Ways(And(Lit(Bool(false)), b), t) == {Out(false, if t then Stale else Nothing)}
  {
    LitWays(false, t);
    JoinIs(Lit(Bool(false)), b);
    JoinWays(Lit(Bool(false)), b, true, t);
  }

  /**
    `if a then end if (false and b) == false then ...`: where `a` is nil, the second condition branches as if it were
    false. Only the jump makes it wrong.
   */
  lemma EarlierJumpSpoilsBranch(m: Env, r: Regs)
    requires Get(r, 0) == Nil && forall x, y :: m.rel(EQ(0), x, y) <==> x == y
    requires Condition(AFTER_IF, Cmp(Eq(0), And(Lit(Bool(false)), Local(1)), Lit(Bool(false)))).0.consts <= m.k
    ensures var e := Cmp(Eq(0), And(Lit(Bool(false)), Local(1)), Lit(Bool(false)));
            var (s1, exits) := Condition(AFTER_IF, e);
            && RunAt(m, AFTER_IF.code, 0, r) == Exit(1, r) && Eval(m, r, e) == Bool(true)
            && 1 <= |s1.code| && Branches(s1, exits, false, RunAt(m, s1.code, 1, r))
    ensures var e := Cmp(Eq(0), And(Lit(Bool(false)), Local(1)), Lit(Bool(false)));
            BranchRight(AFTER_IF, e, false) && !BranchRight(AFTER_IF, e, true) && Carried(AFTER_IF)
  {
    hide Compile, Condition, Exp2RK, Start, Enters, RunAt, Act, Ways, Branches;
    IfThenEnd();
    IfCarried();
    IfRuns(m, r);
    var a, f := And(Lit(Bool(false)), Local(1)), Lit(Bool(false));
    var e := Cmp(Eq(0), a, f);
    assert EntryTag(AFTER_IF, 1, r) == Some(Nil);
    StopAct(m, AFTER_IF, Local(1), r, Some(Nil));
    ActCmp(m, AFTER_IF, Eq(0), a, f, r, Some(Nil));
    var (s1, d1) := Compile(AFTER_IF, a);
    LitAct(m, Exp2RK(s1, d1).0, Bool(false), r, RkTo(s1, d1, Leaves(false, Some(Nil))).tag);
    ConditionTheorem(m, e, AFTER_IF, 1, r);
    StopWays(Local(1), false);
    StopWays(Local(1), true);
    NoComparisonsRight(AFTER_IF, a, false);
    forall u: bool
      ensures ComparesRight(Exp2RK(s1, d1).0, f, u) && Exact(f, u)
    {
      NoComparisonsRight(Exp2RK(s1, d1).0, f, u);
      LitWays(false, u);
    }
  }

  lemma IfRuns(m: Env, r: Regs)
    requires Get(r, 0) == Nil
    ensures RunAt(m, AFTER_IF.code, 0, r) == Exit(1, r)
  {
    assert Run(m, AFTER_IF.code, 1, r) == Exit(1, r);
  }
}
