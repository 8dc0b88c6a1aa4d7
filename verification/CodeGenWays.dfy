/**
  The ways in which control can leave the code of an expression, found from the expression alone, and when the values
  that jumps carry are the right ones.
 */
module CodeGenWays {
  import opened Common
  import opened JumpCode
  import opened CodeGen
  import opened CodeGenSem
  import opened CodeGenCond
  import opened CodeGenExp
  import opened CodeGenMeaning

  // Shapes

  /** What the kind of a descriptor says of the value, without registers and indices. */
  datatype Shape = SNil | STrue | SFalse | SConst | SLocal | SUp | STest | SNot | SReg

  function ShapeOf(s: State, k: Kind): Shape {
    match k
    case VNIL => SNil
    case VTRUE => STrue
    case VFALSE => SFalse
    case VK(_) => SConst
    case VKNUM(_) => SConst
    case VLOCAL(_) => SLocal
    case VUPVAL(_) => SUp
    case VJMP(_) => STest
    case VRELOCABLE(_) => if IsNot(s, k) then SNot else SReg
    case VNONRELOC(_) => SReg
  }

  function Discharged(sh: Shape): Shape { if sh.SLocal? || sh.SUp? then SReg else sh }

  function Negation(sh: Shape): Shape {
    match sh
    case SNil => STrue
    case SFalse => STrue
    case STrue => SFalse
    case SConst => SFalse
    case STest => STest
    case _ => SNot
  }

  function ShapeFor(e: Expr): Shape {
    match e
    case Lit(v) => (match v case Nil => SNil case Bool(b) => if b then STrue else SFalse case Other(_) => SConst)
    case Str(_) => SConst
    case Local(_) => SLocal
    case Up(_) => SUp
    case Neg(a) => Negation(ShapeFor(a))
    case And(_, b) => Discharged(ShapeFor(b))
    case Or(_, b) => Discharged(ShapeFor(b))
    case Cmp(_, _, _) => STest
  }

  lemma DischargedShape(s: State, d: ExpDesc)
    ensures var (s1, d1) := DischargeVars(s, d); ShapeOf(s1, d1.k) == Discharged(ShapeOf(s, d.k))
  {
    if d.k.VUPVAL? { EmitOther(s, JumpCode.GetUpval(None, d.k.u)); }
  }

  lemma NegationShape(s: State, d: ExpDesc)
    ensures var (s1, d1) := CodeNot(s, d); ShapeOf(s1, d1.k) == Negation(ShapeOf(s, d.k))
  {
    hide Discharge2AnyReg, Emit, RemoveValues, DischargeVars, FreeExp;
    DischargedShape(s, d);
    var (s1, d1) := DischargeVars(s, d);
    var (s2, k) := NotValue(s1, d1);
    if k.VRELOCABLE? {
      var (r, e) := Discharge2AnyReg(s1, d1);
      EmitOther(FreeExp(r, e), Not(None, if e.k.VNONRELOC? then e.k.reg else 0));
      RemovesNoNot(s2.code, d1.t, k.pc);
      RemovesNoNot(RemoveValues(s2.code, d1.t), d1.f, k.pc);
    }
  }

  lemma RemovesNoNot(c: seq<Ins>, l: seq<nat>, i: nat)
    requires i < |c| && c[i].Not?
    ensures RemoveValues(c, l)[i] == c[i]
  {
    RemoveValuesAt(c, l);
    assert RemoveValues(c, l)[i] == RemovedAt(c, l, i);
  }

  lemma {:induction false} ShapeIs(s: State, e: Expr)
    ensures ShapeOf(Compile(s, e).0, Compile(s, e).1.k) == ShapeFor(e)
    decreases e
  {
    hide GoIf, CodeNot, Exp2RK, DischargeVars, CodeComp;
    match e
    case Neg(a) =>
      ShapeIs(s, a);
      NegationShape(Compile(s, a).0, Compile(s, a).1);
    case And(a, b) =>
      var (s2, g) := GoIf(Compile(s, a).0, Compile(s, a).1, true);
      ShapeIs(s2, b);
      DischargedShape(Compile(s2, b).0, Compile(s2, b).1);
    case Or(a, b) =>
      var (s2, g) := GoIf(Compile(s, a).0, Compile(s, a).1, false);
      ShapeIs(s2, b);
      DischargedShape(Compile(s2, b).0, Compile(s2, b).1);
    case Cmp(op, a, b) =>
      var (s2, d2) := Exp2RK(Compile(s, a).0, Compile(s, a).1);
      ComparisonKind(Compile(s2, b).0, op, d2, Compile(s2, b).1);
    case _ =>
  }

  lemma ComparisonKind(s: State, op: Comparison, d1: ExpDesc, d2: ExpDesc)
    ensures CodeComp(s, op, d1, d2).1.k.VJMP?
  {
    hide Exp2RK, CondJump;
  }

  /** What a shape tells of the value, when control stays. */
  predicate Tells(sh: Shape, v: V) {
    match sh
    case SNil => v == Nil
    case STrue => v == Bool(true)
    case SFalse => v == Bool(false)
    case SConst => Truthy(v)
    case STest => v.Bool?
    case SNot => v.Bool?
    case _ => true
  }

  lemma {:induction false} ShapeTells(m: Env, s: State, e: Expr, r: Regs, t: Option<V>)
    ensures var o := Act(m, s, e, r, t); o.Stays? ==> Tells(ShapeFor(e), o.v)
    decreases e
  {
    hide GoIf, GoIfTo, Exp2RK, Compares, CodeNot, RkTo, DischargeVars;
    match e
    case Neg(a) =>
      ShapeTells(m, s, a, r, t);
      ShapeIs(s, a);
    case And(a, b) =>
      var (s1, d1) := Compile(s, a);
      ShapeTells(m, GoIf(s1, d1, true).0, b, r, GoIfTo(s1, d1, true, Act(m, s, a, r, t)).tag);
    case Or(a, b) =>
      var (s1, d1) := Compile(s, a);
      ShapeTells(m, GoIf(s1, d1, false).0, b, r, GoIfTo(s1, d1, false, Act(m, s, a, r, t)).tag);
    case _ =>
  }

  // Ways

  /** What a jump out of an expression carries: nothing, the value of the expression, or another value. */
  datatype Carried = Nothing | Own | Stale

  /** Control is at the end, where the value is, through a jump that carries a value or not; or it leaves. */
  datatype Way = Here(truth: bool, tagged: bool) | Out(cond: bool, carried: Carried)

  function VarsWay(sh: Shape, w: Way): Way { if sh.SUp? && w.Here? then Here(w.truth, false) else w }

  predicate GoesOnShape(sh: Shape, cond: bool) { if cond then sh.SConst? || sh.STrue? else sh.SNil? || sh.SFalse? }

  predicate AlwaysShape(sh: Shape, cond: bool) { if cond then sh.SFalse? else sh.STrue? }

  /**
    The way through `luaK_goiftrue` or `luaK_goiffalse`: a literal that always jumps takes over what is carried to it.
   */
  function LeaveWay(sh: Shape, cond: bool, way: Way): Way {
    var w := VarsWay(sh, way);
    match w
    case Out(c, carried) => if c == cond then Here(true, !carried.Nothing?) else w
    case Here(truth, tagged) =>
      if GoesOnShape(sh, cond) then Here(true, tagged)
      else if AlwaysShape(sh, cond) then Out(!cond, if tagged then Stale else Nothing)
      else if truth == cond then Here(true, false)
      else Out(!cond, if sh.STest? || sh.SNot? then Nothing else Own)
  }

  function NotWay(sh: Shape, way: Way): Way {
    var w := VarsWay(sh, way);
    match w
    case Out(c, _) => Out(!c, Nothing)
    case Here(truth, tagged) => Here(!truth, tagged && !sh.SLocal? && !sh.SNot? && !sh.SReg?)
  }

  function LeaveWays(cond: bool, sh: Shape, a: set<Way>): set<Way> { set w | w in a :: LeaveWay(sh, cond, w) }

  /** The ways out of the first operand, and those of the second where control can come to it. */
  function Second(sh: Shape, l: set<Way>, bare: set<Way>, tagged: set<Way>): set<Way> {
    (set w | w in l && w.Out?)
    + (if Here(true, false) in l then set w | w in bare :: VarsWay(sh, w) else {})
    + (if Here(true, true) in l then set w | w in tagged :: VarsWay(sh, w) else {})
  }

  /** The ways of an expression to which control comes through a jump that carries a value, or not. */
  function Ways(e: Expr, tagged: bool): set<Way>
    decreases e
  {
    match e
    case Lit(v) => {Here(Truthy(v), tagged)}
    case Str(_) => {Here(true, tagged)}
    case Local(_) => {Here(true, tagged), Here(false, tagged)}
    case Up(_) => {Here(true, tagged), Here(false, tagged)}
    case Neg(a) => set w | w in Ways(a, tagged) :: NotWay(ShapeFor(a), w)
    case And(a, b) => Second(ShapeFor(b), LeaveWays(true, ShapeFor(a), Ways(a, tagged)), Ways(b, false), Ways(b, true))
    case Or(a, b) => Second(ShapeFor(b), LeaveWays(false, ShapeFor(a), Ways(a, tagged)), Ways(b, false), Ways(b, true))
    case Cmp(_, _, _) => {Here(true, false), Here(false, false)}
  }

  /** No jump out of the expression carries a value that is not its own. */
  predicate Exact(e: Expr, tagged: bool) {
    forall w :: w in Ways(e, tagged) ==> !(w.Out? && w.carried.Stale?)
  }

  /** Whether control can come to the second operand of a comparison through a jump that carries a value. */
  function AfterFirst(s: State, a: Expr, tagged: bool): set<bool> {
    set w | w in Ways(a, tagged) :: Still(Compile(s, a).0, Compile(s, a).1) && w.Here? && w.tagged
  }

  /** All operands of comparisons have their own values. */
  predicate ComparesRight(s: State, e: Expr, tagged: bool)
    decreases e
  {
    match e
    case Neg(a) => ComparesRight(s, a, tagged)
    case And(a, b) =>
      var (s1, d1) := Compile(s, a);
      var s2, l := GoIf(s1, d1, true).0, LeaveWays(true, ShapeFor(a), Ways(a, tagged));
      ComparesRight(s, a, tagged) && forall u: bool :: Here(true, u) in l ==> ComparesRight(s2, b, u)
    case Or(a, b) =>
      var (s1, d1) := Compile(s, a);
      var s2, l := GoIf(s1, d1, false).0, LeaveWays(false, ShapeFor(a), Ways(a, tagged));
      ComparesRight(s, a, tagged) && forall u: bool :: Here(true, u) in l ==> ComparesRight(s2, b, u)
    case Cmp(_, a, b) =>
      var (s1, d1) := Compile(s, a);
      var s2 := Exp2RK(s1, d1).0;
      ComparesRight(s, a, tagged) && Exact(a, tagged)
      && forall u :: u in AfterFirst(s, a, tagged) ==> ComparesRight(s2, b, u) && Exact(b, u)
    case _ => true
  }

  // Every outcome is one of the ways

  /** The outcome takes this way, where the value of the expression is `v`. */
  predicate Fits(o: Outcome, w: Way, v: V) {
    match o
    case Stays(x, tag) => w == Here(Truthy(v), tag.Some?) && x == v
    case Leaves(cond, tag) =>
      w.Out? && w.cond == cond
      && match w.carried
         case Nothing => tag == None && v == Bool(cond)
         case Own => tag == Some(v) && Truthy(v) == cond
         case Stale => tag.Some? && v == Bool(cond)
  }

  lemma VarsFits(s: State, k: Kind, o: Outcome, w: Way, v: V)
    requires Fits(o, w, v)
    ensures Fits(VarsTo(k, o), VarsWay(ShapeOf(s, k), w), v)
  {
  }

  /** Through a condition: control goes on when the value is `cond`, else it leaves. */
  lemma LeaveFits(s: State, d: ExpDesc, cond: bool, o: Outcome, w: Way, v: V)
    requires Fits(o, w, v) && (o.Stays? ==> Tells(ShapeOf(s, d.k), v))
    ensures var q, z := GoIfTo(s, d, cond, o), LeaveWay(ShapeOf(s, d.k), cond, w);
            && (q.Leaves? ==> Fits(q, z, v) && Truthy(v) != cond)
            && (q.Stays? ==> z == Here(true, q.tag.Some?) && Truthy(v) == cond)
  {
    hide *;
    var (s1, d1) := DischargeVars(s, d);
    VarsFits(s, d.k, o, w, v);
    VarsStays(d.k, o);
    SameLiterals(s, d);
    LeaveToFits(s1, d1.k, ShapeOf(s, d.k), cond, VarsTo(d.k, o), VarsWay(ShapeOf(s, d.k), w), v);
    GoIfToIs(s, d, cond, o);
    LeaveWayIs(ShapeOf(s, d.k), cond, w);
    HereFits(cond, LeaveTo(s1, d1.k, cond, VarsTo(d.k, o)),
             Passed(ShapeOf(s, d.k), cond, VarsWay(ShapeOf(s, d.k), w)), v);
  }

  /** A way through the test, before the other exits are brought here. */
  function Passed(sh: Shape, cond: bool, w: Way): Way {
    if w.Out? then w
    else if GoesOnShape(sh, cond) then Here(true, w.tagged)
    else if AlwaysShape(sh, cond) then Out(!cond, if w.tagged then Stale else Nothing)
    else if w.truth == cond then Here(true, false)
    else Out(!cond, if sh.STest? || sh.SNot? then Nothing else Own)
  }

  function Brought(cond: bool, w: Way): Way { if w.Out? && w.cond == cond then Here(true, !w.carried.Nothing?) else w }

  lemma LeaveWayIs(sh: Shape, cond: bool, w: Way)
    ensures LeaveWay(sh, cond, w) == Brought(cond, Passed(sh, cond, VarsWay(sh, w)))
  {
  }

  lemma GoIfToIs(s: State, d: ExpDesc, cond: bool, o: Outcome)
    ensures var (s1, d1) := DischargeVars(s, d);
            GoIfTo(s, d, cond, o) == HereOf(cond, LeaveTo(s1, d1.k, cond, VarsTo(d.k, o)))
  {
    hide DischargeVars, LeaveTo;
  }

  lemma VarsStays(k: Kind, o: Outcome)
    ensures VarsTo(k, o).Stays? <==> o.Stays?
  {
  }

  /** The value is `cond` where control stays, and is not where the test jumps. */
  predicate PassedFits(cond: bool, q: Outcome, z: Way, v: V) {
    if q.Leaves? then Fits(q, z, v) else z == Here(true, q.tag.Some?) && Truthy(v) == cond
  }

  lemma LeaveToFits(s: State, k: Kind, sh: Shape, cond: bool, o: Outcome, w: Way, v: V)
    requires Fits(o, w, v) && (o.Stays? ==> Tells(sh, v))
    requires (GoesOn(k, cond) <==> GoesOnShape(sh, cond)) && (AlwaysJumps(k, cond) <==> AlwaysShape(sh, cond))
    requires k.VJMP? || IsNot(s, k) <==> sh.STest? || sh.SNot?
    ensures PassedFits(cond, LeaveTo(s, k, cond, o), Passed(sh, cond, w), v)
  {
    hide GoesOn, AlwaysJumps, IsNot;
  }

  lemma HereFits(cond: bool, o: Outcome, w: Way, v: V)
    requires PassedFits(cond, o, w, v)
    ensures var q, z := HereOf(cond, o), Brought(cond, w);
            && (q.Leaves? ==> Fits(q, z, v) && Truthy(v) != cond)
            && (q.Stays? ==> z == Here(true, q.tag.Some?) && Truthy(v) == cond)
  {
  }

  lemma SameLiterals(s: State, d: ExpDesc)
    ensures var (s1, d1) := DischargeVars(s, d); var sh := ShapeOf(s, d.k);
            && (forall c :: (GoesOn(d1.k, c) <==> GoesOnShape(sh, c)) && (AlwaysJumps(d1.k, c) <==> AlwaysShape(sh, c)))
            && (d1.k.VJMP? || IsNot(s1, d1.k) <==> sh.STest? || sh.SNot?)
  {
    hide Emit;
    DischargedShape(s, d);
  }

  lemma NotFits(s: State, d: ExpDesc, o: Outcome, w: Way, v: V)
    requires Fits(o, w, v)
    ensures Fits(NotTo(s, d, o), NotWay(ShapeOf(s, d.k), w), Bool(!Truthy(v)))
  {
    hide Emit;
    VarsFits(s, d.k, o, w, v);
  }

  lemma RkFits(s: State, d: ExpDesc, o: Outcome, w: Way, v: V)
    requires Fits(o, w, v) && !(w.Out? && w.carried.Stale?)
    ensures var x := RkTo(s, d, o); ValueOf(x) == v && x.tag.Some? == (Still(s, d) && w.Here? && w.tagged)
  {
    hide Still;
  }

  lemma LeaveIn(cond: bool, sh: Shape, a: set<Way>, w: Way)
    requires w in a
    ensures LeaveWay(sh, cond, w) in LeaveWays(cond, sh, a)
  {
  }

  lemma SecondIn(sh: Shape, l: set<Way>, bare: set<Way>, tagged: set<Way>, z: Way, w: Way)
    requires z in l && (z.Out? || (z.truth && w in (if z.tagged then tagged else bare)))
    ensures (if z.Out? then z else VarsWay(sh, w)) in Second(sh, l, bare, tagged)
  {
  }

  /** What is taken for granted of a comparison holds of its operands. */
  lemma AfterIn(s: State, a: Expr, tagged: bool, w: Way)
    requires w in Ways(a, tagged)
    ensures (Still(Compile(s, a).0, Compile(s, a).1) && w.Here? && w.tagged) in AfterFirst(s, a, tagged)
  {
    hide Ways, Still;
  }

  /** The value of an expression in which the comparisons give the answers that they give in the code. */
  function Seen(m: Env, s: State, e: Expr, r: Regs, tag: Option<V>): V
    decreases e
  {
    match e
    case Lit(v) => v
    case Str(n) => Other(n)
    case Local(a) => Get(r, a)
    case Up(u) => Upval(m, u)
    case Neg(a) => Bool(!Truthy(Seen(m, s, a, r, tag)))
    case And(a, b) =>
      var (s1, d1) := Compile(s, a);
      var v := Seen(m, s, a, r, tag);
      if Truthy(v) then Seen(m, GoIf(s1, d1, true).0, b, r, GoIfTo(s1, d1, true, Act(m, s, a, r, tag)).tag) else v
    case Or(a, b) =>
      var (s1, d1) := Compile(s, a);
      var v := Seen(m, s, a, r, tag);
      if Truthy(v) then v else Seen(m, GoIf(s1, d1, false).0, b, r, GoIfTo(s1, d1, false, Act(m, s, a, r, tag)).tag)
    case Cmp(_, _, _) => ValueOf(Act(m, s, e, r, tag))
  }

  lemma SeenJoin(m: Env, s: State, a: Expr, b: Expr, cond: bool, r: Regs, t: Option<V>)
    ensures var (s1, d1) := Compile(s, a);
            var v := Seen(m, s, a, r, t);
            Seen(m, s, Join(cond, a, b), r, t) ==
              if Truthy(v) == cond then
                Seen(m, GoIf(s1, d1, cond).0, b, r, GoIfTo(s1, d1, cond, Act(m, s, a, r, t)).tag)
              else v
  {
    hide GoIf, GoIfTo, Act, Compile;
  }

  /** Every outcome takes one of the ways, with this value. */
  lemma {:induction false} SeenSound(m: Env, s: State, e: Expr, r: Regs, t: Option<V>) returns (w: Way)
    ensures w in Ways(e, t.Some?) && Fits(Act(m, s, e, r, t), w, Seen(m, s, e, r, t))
    decreases e, 1
  {
    hide GoIf, GoIfTo, VarsTo, NotTo, RkTo, Exp2RK, CodeNot;
    hide DischargeVars, NotWay, LeaveWay, Second, LeaveWays, Compares, Fits;
    match e
    case Lit(v) => w := Here(Truthy(v), t.Some?); AtomFits(Stays(v, t));
    case Str(n) => w := Here(true, t.Some?); AtomFits(Stays(Other(n), t));
    case Local(a) => w := Here(Truthy(Get(r, a)), t.Some?); AtomFits(Stays(Get(r, a), t));
    case Up(u) => w := Here(Truthy(Upval(m, u)), t.Some?); AtomFits(Stays(Upval(m, u), t));
    case Neg(a) =>
      var x := SeenSound(m, s, a, r, t);
      ShapeIs(s, a);
      NotFits(Compile(s, a).0, Compile(s, a).1, Act(m, s, a, r, t), x, Seen(m, s, a, r, t));
      w := NotWay(ShapeFor(a), x);
    case And(a, b) => JoinIs(a, b); w := JoinSound(m, s, a, b, true, r, t);
    case Or(a, b) => JoinIs(a, b); w := JoinSound(m, s, a, b, false, r, t);
    case Cmp(op, a, b) =>
      ActCmp(m, s, op, a, b, r, t);
      var o := Act(m, s, e, r, t);
      w := Here(Truthy(o.v), false);
      AtomFits(o);
  }

  /** Where the operands of comparisons have their own values, so has the expression. */
  lemma {:induction false} SeenIsEval(m: Env, s: State, e: Expr, r: Regs, t: Option<V>)
    requires ComparesRight(s, e, t.Some?)
    ensures Seen(m, s, e, r, t) == Eval(m, r, e)
    decreases e, 1
  {
    hide GoIf, GoIfTo, VarsTo, NotTo, RkTo, Exp2RK, CodeNot;
    hide DischargeVars, Ways, LeaveWay, LeaveWays, Compares, Fits, Act;
    match e
    case Neg(a) => SeenIsEval(m, s, a, r, t);
    case And(a, b) => JoinIs(a, b); JoinIsEval(m, s, a, b, true, r, t);
    case Or(a, b) => JoinIs(a, b); JoinIsEval(m, s, a, b, false, r, t);
    case Cmp(op, a, b) =>
      SeenIsEval(m, s, a, r, t);
      var x := SeenSound(m, s, a, r, t);
      var (s1, d1) := Compile(s, a);
      var s2 := Exp2RK(s1, d1).0;
      RkFits(s1, d1, Act(m, s, a, r, t), x, Eval(m, r, a));
      AfterIn(s, a, t.Some?, x);
      var o := RkTo(s1, d1, Act(m, s, a, r, t));
      SeenIsEval(m, s2, b, r, o.tag);
      var y := SeenSound(m, s2, b, r, o.tag);
      RkFits(Compile(s2, b).0, Compile(s2, b).1, Act(m, s2, b, r, o.tag), y, Eval(m, r, b));
      ActCmp(m, s, op, a, b, r, t);
    case _ =>
  }

  lemma {:induction false} JoinIsEval(m: Env, s: State, a: Expr, b: Expr, cond: bool, r: Regs, t: Option<V>)
    requires ComparesRight(s, Join(cond, a, b), t.Some?)
    ensures Seen(m, s, Join(cond, a, b), r, t) == Eval(m, r, Join(cond, a, b))
    decreases Join(cond, a, b), 0
  {
    hide *;
    JoinSmaller(a, b, cond);
    JoinRight(s, a, b, cond, t.Some?);
    SeenJoin(m, s, a, b, cond, r, t);
    JoinEval(m, r, a, b, cond);
    SeenIsEval(m, s, a, r, t);
    var x := SecondSeen(m, s, a, cond, r, t);
    if Truthy(Seen(m, s, a, r, t)) == cond {
      var (s1, d1) := Compile(s, a);
      LeaveIn(cond, ShapeFor(a), Ways(a, t.Some?), x);
      SeenIsEval(m, GoIf(s1, d1, cond).0, b, r, GoIfTo(s1, d1, cond, Act(m, s, a, r, t)).tag);
    }
  }

  /** Control goes on to the second operand where the first one is `cond`. */
  lemma SecondSeen(m: Env, s: State, a: Expr, cond: bool, r: Regs, t: Option<V>) returns (x: Way)
    ensures x in Ways(a, t.Some?) && Fits(Act(m, s, a, r, t), x, Seen(m, s, a, r, t))
    ensures var (s1, d1) := Compile(s, a);
            var q, z := GoIfTo(s1, d1, cond, Act(m, s, a, r, t)), LeaveWay(ShapeFor(a), cond, x);
            && (q.Stays? <==> Truthy(Seen(m, s, a, r, t)) == cond) && (q.Leaves? <==> z.Out?)
            && (q.Stays? ==> z == Here(true, q.tag.Some?))
            && (q.Leaves? ==> Fits(q, z, Seen(m, s, a, r, t)))
  {
    hide *;
    var (s1, d1) := Compile(s, a);
    x := SeenSound(m, s, a, r, t);
    ShapeIs(s, a);
    ShapeTells(m, s, a, r, t);
    StaysValue(Act(m, s, a, r, t), x, Seen(m, s, a, r, t));
    LeaveFits(s1, d1, cond, Act(m, s, a, r, t), x, Seen(m, s, a, r, t));
    LeavesOut(GoIfTo(s1, d1, cond, Act(m, s, a, r, t)), LeaveWay(ShapeFor(a), cond, x), Seen(m, s, a, r, t));
  }

  /**
    Where the operands of comparisons have their own values, every outcome takes one of the ways with its own value.
   */
  lemma WaysSound(m: Env, s: State, e: Expr, r: Regs, t: Option<V>) returns (w: Way)
    requires ComparesRight(s, e, t.Some?)
    ensures w in Ways(e, t.Some?) && Fits(Act(m, s, e, r, t), w, Eval(m, r, e))
  {
    hide *;
    w := SeenSound(m, s, e, r, t);
    SeenIsEval(m, s, e, r, t);
  }

  lemma AtomFits(o: Outcome)
    requires o.Stays?
    ensures Fits(o, Here(Truthy(o.v), o.tag.Some?), o.v)
  {
  }

  lemma JoinWays(a: Expr, b: Expr, cond: bool, t: bool)
    ensures Ways(Join(cond, a, b), t) ==
              Second(ShapeFor(b), LeaveWays(cond, ShapeFor(a), Ways(a, t)), Ways(b, false), Ways(b, true))
  {
    hide Second, LeaveWays;
  }

  lemma JoinRight(s: State, a: Expr, b: Expr, cond: bool, t: bool)
    ensures var (s1, d1) := Compile(s, a);
            ComparesRight(s, Join(cond, a, b), t) <==>
              ComparesRight(s, a, t) && forall u: bool :: Here(true, u) in LeaveWays(cond, ShapeFor(a), Ways(a, t)) ==>
                                                            ComparesRight(GoIf(s1, d1, cond).0, b, u)
  {
    hide GoIf, LeaveWays, Ways, Compile;
  }

  lemma JoinEval(m: Env, r: Regs, a: Expr, b: Expr, cond: bool)
    ensures Eval(m, r, Join(cond, a, b)) == if Truthy(Eval(m, r, a)) == cond then Eval(m, r, b) else Eval(m, r, a)
  {
  }

  /** One outcome of `and` or `or`, by the ways and values of its operands. */
  lemma JoinFits(m: Env, s: State, a: Expr, b: Expr, cond: bool, r: Regs, t: Option<V>, x: Way, y: Way, va: V, vb: V)
    requires x in Ways(a, t.Some?) && Fits(Act(m, s, a, r, t), x, va)
    requires var (s1, d1) := Compile(s, a);
             var s2, q := GoIf(s1, d1, cond).0, GoIfTo(s1, d1, cond, Act(m, s, a, r, t));
             q.Stays? ==> y in Ways(b, q.tag.Some?) && Fits(Act(m, s2, b, r, q.tag), y, vb)
    ensures var z := LeaveWay(ShapeFor(a), cond, x);
            var w := if z.Out? then z else VarsWay(ShapeFor(b), y);
            w in Ways(Join(cond, a, b), t.Some?)
            && Fits(Act(m, s, Join(cond, a, b), r, t), w, if Truthy(va) == cond then vb else va)
  {
    hide *;
    var (s1, d1) := Compile(s, a);
    var s2, q := GoIf(s1, d1, cond).0, GoIfTo(s1, d1, cond, Act(m, s, a, r, t));
    ShapeIs(s, a);
    ShapeTells(m, s, a, r, t);
    StaysValue(Act(m, s, a, r, t), x, va);
    LeaveFits(s1, d1, cond, Act(m, s, a, r, t), x, va);
    LeaveIn(cond, ShapeFor(a), Ways(a, t.Some?), x);
    LeavesOut(q, LeaveWay(ShapeFor(a), cond, x), va);
    JoinWays(a, b, cond, t.Some?);
    SecondIn(ShapeFor(b), LeaveWays(cond, ShapeFor(a), Ways(a, t.Some?)), Ways(b, false), Ways(b, true),
             LeaveWay(ShapeFor(a), cond, x), y);
    ActJoin(m, s, a, b, cond, r, t);
    if q.Stays? {
      ShapeIs(s2, b);
      VarsFits(Compile(s2, b).0, Compile(s2, b).1.k, Act(m, s2, b, r, q.tag), y, vb);
    }
  }

  lemma LeavesOut(o: Outcome, w: Way, v: V)
    ensures Fits(o, w, v) ==> (o.Leaves? <==> w.Out?)
  {
  }

  lemma StaysValue(o: Outcome, w: Way, v: V)
    requires Fits(o, w, v)
    ensures o.Stays? ==> o.v == v
  {
  }

  lemma {:induction false} JoinSound(m: Env, s: State, a: Expr, b: Expr, cond: bool, r: Regs, t: Option<V>)
    returns (w: Way)
    ensures w in Ways(Join(cond, a, b), t.Some?)
            && Fits(Act(m, s, Join(cond, a, b), r, t), w, Seen(m, s, Join(cond, a, b), r, t))
    decreases Join(cond, a, b), 0
  {
    hide *;
    JoinSmaller(a, b, cond);
    var (s1, d1) := Compile(s, a);
    var s2, q := GoIf(s1, d1, cond).0, GoIfTo(s1, d1, cond, Act(m, s, a, r, t));
    var x := SeenSound(m, s, a, r, t);
    var z := LeaveWay(ShapeFor(a), cond, x);
    ShapeIs(s, a);
    ShapeTells(m, s, a, r, t);
    StaysValue(Act(m, s, a, r, t), x, Seen(m, s, a, r, t));
    LeaveFits(s1, d1, cond, Act(m, s, a, r, t), x, Seen(m, s, a, r, t));
    LeaveIn(cond, ShapeFor(a), Ways(a, t.Some?), x);
    var y := x;
    if q.Stays? { y := SeenSound(m, s2, b, r, q.tag); }
    JoinFits(m, s, a, b, cond, r, t, x, y, Seen(m, s, a, r, t), Seen(m, s2, b, r, q.tag));
    SeenJoin(m, s, a, b, cond, r, t);
    w := if z.Out? then z else VarsWay(ShapeFor(b), y);
  }

  /** Where nothing stale is carried, the code has the value of the expression. */
  lemma ValueFits(o: Outcome, w: Way, v: V)
    requires Fits(o, w, v)
    ensures w.Out? && w.carried.Stale? <==> o.Leaves? && o.tag.Some? && v == Bool(o.cond) && w == Out(o.cond, Stale)
    ensures !(w.Out? && w.carried.Stale?) ==> ValueOf(o) == v
  {
  }

  /** Control goes the right way even where values are wrong. */
  function TruthOf(o: Outcome): bool {
    match o
    case Stays(v, _) => Truthy(v)
    case Leaves(cond, _) => cond
  }

  lemma TruthFits(o: Outcome, w: Way, v: V)
    requires Fits(o, w, v)
    ensures TruthOf(o) == Truthy(v)
  {
  }
}
