/** The code generator of `lcode.c` for boolean expressions, on explicit jump lists. */
module CodeGen {
  import opened Common
  import opened JumpCode

  /** Where the value of an expression is, as in `expkind`. */
  datatype Kind =
    | VNIL | VTRUE | VFALSE
    | VK(k: nat) | VKNUM(v: V)
    | VLOCAL(local: nat) | VUPVAL(u: nat)
    | VJMP(jump: nat) | VRELOCABLE(pc: nat) | VNONRELOC(reg: nat)

  /** `expdesc`: `t` and `f` are the lists of jumps that leave when the expression is true, or false. */
  datatype ExpDesc = ExpDesc(k: Kind, t: seq<nat>, f: seq<nat>)

  /** The part of `FuncState` that code generation changes; `jpc` lists the jumps to the next instruction. */
  datatype State = State(code: seq<Ins>, jpc: seq<nat>, lasttarget: int, freereg: nat, nactvar: nat, consts: seq<V>)

  const MAXINDEXRK: nat := 255

  predicate HasJumps(d: ExpDesc) { d.t != d.f }

  // Jump lists

  /** `patchtestreg` and `fixjump` on one element of a list. */
  function PatchOne(c: seq<Ins>, j: nat, vtarget: nat, reg: Option<nat>, dtarget: nat): (r: seq<Ins>)
    ensures |r| == |c|
  {
    if j >= |c| then c
    else if Carries(c, j) then
      var i := c[j - 1];
      var control := if reg.Some? && reg.value != i.b then TestSet(reg, i.b, i.c) else Test(i.b, i.c);
      c[j - 1 := control][j := Jmp(vtarget)]
    else c[j := Jmp(dtarget)]
  }

  /** `patchlistaux`: jumps that carry a value go to `vtarget`, with the value in `reg`; the others go to `dtarget`. */
  function PatchList(c: seq<Ins>, l: seq<nat>, vtarget: nat, reg: Option<nat>, dtarget: nat): (r: seq<Ins>)
    ensures |r| == |c|
    decreases |l|
  {
    if l == [] then c else PatchList(PatchOne(c, l[0], vtarget, reg, dtarget), l[1..], vtarget, reg, dtarget)
  }

  /** `need_value`: some jump of the list does not carry a value. */
  predicate NeedValue(c: seq<Ins>, l: seq<nat>) {
    exists j :: j in l && !Carries(c, j)
  }

  /** `patchtestreg` without a register. */
  function RemoveValue(c: seq<Ins>, j: nat): (r: seq<Ins>)
    ensures |r| == |c|
  {
    if Carries(c, j) then c[j - 1 := Test(c[j - 1].b, c[j - 1].c)] else c
  }

  function RemoveValues(c: seq<Ins>, l: seq<nat>): (r: seq<Ins>)
    ensures |r| == |c|
    decreases |l|
  {
    if l == [] then c else RemoveValues(RemoveValue(c, l[0]), l[1..])
  }

  // Emitting code

  function DischargeJpc(s: State): State {
    s.(code := PatchList(s.code, s.jpc, |s.code|, None, |s.code|), jpc := [])
  }

  /** `luaK_code`. */
  function Emit(s: State, i: Ins): State {
    var r := DischargeJpc(s);
    r.(code := r.code + [i])
  }

  /** `luaK_jump`: pending jumps to here join the list of the new jump. */
  function Jump(s: State): State {
    s.(code := s.code + [Jmp(NO_JUMP)], jpc := [])
  }

  function JumpsOf(s: State): seq<nat> { [|s.code|] + s.jpc }

  /** `condjump`: the jump is the last instruction. */
  function CondJump(s: State, i: Ins): State { Jump(Emit(s, i)) }

  function GetLabel(s: State): State { s.(lasttarget := |s.code|) }

  /** `luaK_patchtohere`. */
  function PatchToHere(s: State, l: seq<nat>): State { GetLabel(s).(jpc := s.jpc + l) }

  // Registers and constants

  function Reserve(s: State): State { s.(freereg := s.freereg + 1) }

  function FreeExp(s: State, d: ExpDesc): State {
    if d.k.VNONRELOC? && d.k.reg >= s.nactvar && s.freereg > 0 then s.(freereg := s.freereg - 1) else s
  }

  function IndexOfConst(k: seq<V>, v: V): (i: nat)
    requires v in k
    ensures i < |k| && k[i] == v
  {
    if k[0] == v then 0 else 1 + IndexOfConst(k[1..], v)
  }

  /** `addk`: constants are not repeated. */
  function AddK(s: State, v: V): State {
    if v in s.consts then s else s.(consts := s.consts + [v])
  }

  function KOf(s: State, v: V): nat { if v in s.consts then IndexOfConst(s.consts, v) else |s.consts| }

  // Discharging expressions

  function DischargeVars(s: State, d: ExpDesc): (State, ExpDesc) {
    match d.k
    case VLOCAL(r) => (s, d.(k := VNONRELOC(r)))
    case VUPVAL(u) => (Emit(s, GetUpval(None, u)), d.(k := VRELOCABLE(|s.code|)))
    case _ => (s, d)
  }

  /** `luaK_nil` for one register. */
  function LoadNil1(s: State, reg: nat): State {
    var n := |s.code|;
    if n > s.lasttarget && n == 0 && reg >= s.nactvar then s
    else if n > s.lasttarget && n > 0 && s.code[n - 1].LoadNil? && s.code[n - 1].a <= reg <= s.code[n - 1].b + 1 then
      if reg > s.code[n - 1].b then s.(code := s.code[n - 1 := LoadNil(s.code[n - 1].a, reg)]) else s
    else Emit(s, LoadNil(reg, reg))
  }

  function SetTarget(i: Ins, reg: nat): Ins {
    match i
    case GetUpval(_, u) => GetUpval(Some(reg), u)
    case Not(_, b) => Not(Some(reg), b)
    case _ => i
  }

  /** `discharge2reg`, after `luaK_dischargevars`: code that puts the value in the register. */
  function LoadTo(s: State, k: Kind, reg: nat): State {
    match k
    case VNIL => LoadNil1(s, reg)
    case VFALSE => Emit(s, LoadBool(reg, false, false))
    case VTRUE => Emit(s, LoadBool(reg, true, false))
    case VK(i) => Emit(s, LoadK(reg, i))
    case VKNUM(v) => Emit(AddK(s, v), LoadK(reg, KOf(s, v)))
    case VRELOCABLE(pc) => if pc < |s.code| then s.(code := s.code[pc := SetTarget(s.code[pc], reg)]) else s
    case VNONRELOC(r) => if r != reg then Emit(s, Move(reg, r)) else s
    case _ => s
  }

  function Discharge2Reg(s: State, d: ExpDesc, reg: nat): (State, ExpDesc) {
    var (s1, d1) := DischargeVars(s, d);
    (LoadTo(s1, d1.k, reg), if d1.k.VJMP? then d1 else d1.(k := VNONRELOC(reg)))
  }

  function Discharge2AnyReg(s: State, d: ExpDesc): (State, ExpDesc) {
    if d.k.VNONRELOC? then (s, d) else Discharge2Reg(Reserve(s), d, s.freereg)
  }

  /** The instructions that load `false` and `true` for jumps that carry no value. */
  function LoadBools(s: State, k: Kind, reg: nat): State {
    var j := if k.VJMP? then s else Jump(s);
    var pf := Emit(GetLabel(j), LoadBool(reg, false, true));
    var pt := Emit(GetLabel(pf), LoadBool(reg, true, false));
    PatchToHere(pt, if k.VJMP? then [] else JumpsOf(s))
  }

  /** `exp2reg`: the value of the whole expression ends up in the register. */
  function Exp2Reg(s: State, d: ExpDesc, reg: nat): (State, ExpDesc) {
    var (s1, d1) := Discharge2Reg(s, d, reg);
    var t := if d1.k.VJMP? then d1.t + [d1.k.jump] else d1.t;
    var done := ExpDesc(VNONRELOC(reg), [], []);
    if t == d1.f then (s1, done)
    else
      var need := NeedValue(s1.code, t) || NeedValue(s1.code, d1.f);
      var pf := |s1.code| + (if d1.k.VJMP? then 0 else 1);
      var s2 := GetLabel(if need then LoadBools(s1, d1.k, reg) else s1);
      var final := |s2.code|;
      var c := PatchList(PatchList(s2.code, d1.f, final, Some(reg), pf), t, final, Some(reg), pf + 1);
      (s2.(code := c), done)
  }

  function Exp2NextReg(s: State, d: ExpDesc): (State, ExpDesc) {
    var (s1, d1) := DischargeVars(s, d);
    var s2 := Reserve(FreeExp(s1, d1));
    Exp2Reg(s2, d1, s2.freereg - 1)
  }

  function Exp2AnyReg(s: State, d: ExpDesc): (State, ExpDesc) {
    var (s1, d1) := DischargeVars(s, d);
    if d1.k.VNONRELOC? && !HasJumps(d1) then (s1, d1)
    else if d1.k.VNONRELOC? && d1.k.reg >= s1.nactvar then Exp2Reg(s1, d1, d1.k.reg)
    else Exp2NextReg(s1, d1)
  }

  function Exp2Val(s: State, d: ExpDesc): (State, ExpDesc) {
    if HasJumps(d) then Exp2AnyReg(s, d) else DischargeVars(s, d)
  }

  function LiteralOf(k: Kind): Option<V> {
    match k
    case VNIL => Some(Nil)
    case VTRUE => Some(Bool(true))
    case VFALSE => Some(Bool(false))
    case VKNUM(v) => Some(v)
    case _ => None
  }

  /** `luaK_exp2RK`; the operand is read off the resulting descriptor by `RkOf`. */
  function Exp2RK(s: State, d: ExpDesc): (State, ExpDesc) {
    var (s1, d1) := Exp2Val(s, d);
    var lit := LiteralOf(d1.k);
    if lit.Some? && |s1.consts| <= MAXINDEXRK then (AddK(s1, lit.value), d1.(k := VK(KOf(s1, lit.value))))
    else if d1.k.VK? && d1.k.k <= MAXINDEXRK then (s1, d1)
    else Exp2AnyReg(s1, d1)
  }

  function RkOf(k: Kind): RK {
    match k
    case VK(i) => Const(i)
    case VNONRELOC(r) => Reg(r)
    case _ => Const(0)
  }

  // Conditions

  /** `invertjump`: the comparison that controls the jump tests for the opposite. */
  function InvertJump(c: seq<Ins>, j: nat): (r: seq<Ins>)
    ensures |r| == |c|
  {
    if 1 <= j <= |c| && c[j - 1].Compare? then c[j - 1 := c[j - 1].(cond := !c[j - 1].cond)] else c
  }

  /** `jumponcond`: jump when the value is `cond`. */
  function JumpOnCond(s: State, d: ExpDesc, cond: bool): State {
    if d.k.VRELOCABLE? && d.k.pc < |s.code| && s.code[d.k.pc].Not? then
      CondJump(s.(code := s.code[..|s.code| - 1]), Test(s.code[d.k.pc].b, !cond))
    else
      var (s1, d1) := Discharge2AnyReg(s, d);
      CondJump(FreeExp(s1, d1), TestSet(None, if d1.k.VNONRELOC? then d1.k.reg else 0, cond))
  }

  /** The literals with which `luaK_goiftrue` (or `luaK_goiffalse`) goes on without a jump. */
  predicate GoesOn(k: Kind, cond: bool) {
    if cond then k.VK? || k.VKNUM? || k.VTRUE? else k.VNIL? || k.VFALSE?
  }

  /** The literal with which it always jumps. */
  predicate AlwaysJumps(k: Kind, cond: bool) {
    if cond then k.VFALSE? else k.VTRUE?
  }

  /** The jump out of the expression, and the list it begins. */
  function LeaveUnless(s: State, d: ExpDesc, cond: bool): (State, seq<nat>) {
    if GoesOn(d.k, cond) then (s, [])
    else if AlwaysJumps(d.k, cond) then (Jump(s), JumpsOf(s))
    else if d.k.VJMP? then (if cond then s.(code := InvertJump(s.code, d.k.jump)) else s, [d.k.jump])
    else var r := JumpOnCond(s, d, !cond); (r, if |r.code| > 0 then [|r.code| - 1] else [])
  }

  /** `luaK_goiftrue` and `luaK_goiffalse`: go on if the expression is `cond`, else leave through a list. */
  function GoIf(s: State, d: ExpDesc, cond: bool): (State, ExpDesc) {
    var (s1, d1) := DischargeVars(s, d);
    var (s2, l) := LeaveUnless(s1, d1, cond);
    if cond then (PatchToHere(s2, d1.t), d1.(t := [], f := d1.f + l))
    else (PatchToHere(s2, d1.f), d1.(f := [], t := d1.t + l))
  }

  /** The value of the negation, when control is here. */
  function NotValue(s: State, d: ExpDesc): (State, Kind) {
    match d.k
    case VNIL => (s, VTRUE)
    case VFALSE => (s, VTRUE)
    case VK(_) => (s, VFALSE)
    case VKNUM(_) => (s, VFALSE)
    case VTRUE => (s, VFALSE)
    case VJMP(j) => (s.(code := InvertJump(s.code, j)), VJMP(j))
    case _ =>
      var (r, e) := Discharge2AnyReg(s, d);
      var r1 := FreeExp(r, e);
      (Emit(r1, Not(None, if e.k.VNONRELOC? then e.k.reg else 0)), VRELOCABLE(|r1.code|))
  }

  /** `codenot`: the lists change places, and their jumps carry no value any more. */
  function CodeNot(s: State, d: ExpDesc): (State, ExpDesc) {
    var (s1, d1) := DischargeVars(s, d);
    var (s2, k) := NotValue(s1, d1);
    (s2.(code := RemoveValues(RemoveValues(s2.code, d1.t), d1.f)), ExpDesc(k, d1.f, d1.t))
  }

  datatype Comparison = Ne(site: nat) | Eq(site: nat) | Lt(site: nat) | Le(site: nat) | Gt(site: nat) | Ge(site: nat)

  function OpOf(c: Comparison): CmpOp {
    match c
    case Ne(n) => EQ(n)
    case Eq(n) => EQ(n)
    case Lt(n) => LT(n)
    case Gt(n) => LT(n)
    case Le(n) => LE(n)
    case Ge(n) => LE(n)
  }

  /** `codecomp`: `>` and `>=` exchange their operands. */
  function CodeComp(s: State, c: Comparison, d1: ExpDesc, d2: ExpDesc): (State, ExpDesc) {
    var (s1, e1) := Exp2RK(s, d1);
    var (s2, e2) := Exp2RK(s1, d2);
    var s3 := FreeExp(FreeExp(s2, e2), e1);
    var x, y := RkOf(e1.k), RkOf(e2.k);
    var i := if c.Gt? || c.Ge? then Compare(OpOf(c), true, y, x) else Compare(OpOf(c), !c.Ne?, x, y);
    (CondJump(s3, i), ExpDesc(VJMP(|s3.code| + 1), e1.t, e1.f))
  }

  // Expressions

  datatype Expr =
    | Lit(v: V)
    | Str(n: int)
    | Local(r: nat)
    | Up(u: nat)
    | Neg(e: Expr)
    | And(x: Expr, y: Expr)
    | Or(x: Expr, y: Expr)
    | Cmp(op: Comparison, x: Expr, y: Expr)

  function LitKind(v: V): Kind {
    match v
    case Nil => VNIL
    case Bool(b) => if b then VTRUE else VFALSE
    case Other(_) => VKNUM(v)
  }

  /** The calls that `subexpr` makes for an expression. */
  function Compile(s: State, e: Expr): (State, ExpDesc)
    decreases e
  {
    match e
    case Lit(v) => (s, ExpDesc(LitKind(v), [], []))
    case Str(n) => (AddK(s, Other(n)), ExpDesc(VK(KOf(s, Other(n))), [], []))
    case Local(r) => (s, ExpDesc(VLOCAL(r), [], []))
    case Up(u) => (s, ExpDesc(VUPVAL(u), [], []))
    case Neg(a) => var (s1, d1) := Compile(s, a); CodeNot(s1, d1)
    case And(a, b) =>
      var (s1, d1) := Compile(s, a);
      var (s2, d2) := GoIf(s1, d1, true);
      var (s3, d3) := Compile(s2, b);
      var (s4, d4) := DischargeVars(s3, d3);
      (s4, d4.(f := d4.f + d2.f))
    case Or(a, b) =>
      var (s1, d1) := Compile(s, a);
      var (s2, d2) := GoIf(s1, d1, false);
      var (s3, d3) := Compile(s2, b);
      var (s4, d4) := DischargeVars(s3, d3);
      (s4, d4.(t := d4.t + d2.t))
    case Cmp(op, a, b) =>
      var (s1, d1) := Compile(s, a);
      var (s2, d2) := Exp2RK(s1, d1);
      var (s3, d3) := Compile(s2, b);
      CodeComp(s3, op, d2, d3)
  }

  /** `cond`: a nil counts as false; the result is the list of jumps for when the condition is false. */
  function Condition(s: State, e: Expr): (State, seq<nat>) {
    var (s1, d1) := Compile(s, e);
    var (s2, d2) := GoIf(s1, if d1.k.VNIL? then d1.(k := VFALSE) else d1, true);
    (s2, d2.f)
  }

  // Meaning

  function Compares(m: Env, op: Comparison, a: V, b: V): bool {
    match op
    case Eq(n) => m.rel(EQ(n), a, b)
    case Ne(n) => !m.rel(EQ(n), a, b)
    case Lt(n) => m.rel(LT(n), a, b)
    case Gt(n) => m.rel(LT(n), b, a)
    case Le(n) => m.rel(LE(n), a, b)
    case Ge(n) => m.rel(LE(n), b, a)
  }

  /** The value of an expression: `and` and `or` give one of their operands (section 2.5.3 of the reference manual). */
  function Eval(m: Env, r: Regs, e: Expr): V {
    match e
    case Lit(v) => v
    case Str(n) => Other(n)
    case Local(a) => Get(r, a)
    case Up(u) => Upval(m, u)
    case Neg(a) => Bool(!Truthy(Eval(m, r, a)))
    case And(a, b) => if Truthy(Eval(m, r, a)) then Eval(m, r, b) else Eval(m, r, a)
    case Or(a, b) => if Truthy(Eval(m, r, a)) then Eval(m, r, a) else Eval(m, r, b)
    case Cmp(op, a, b) => Bool(Compares(m, op, Eval(m, r, a), Eval(m, r, b)))
  }

  /** Section 2.5.2 of the reference manual: greater is less with the operands exchanged, `~=` is no `==`. */
  lemma CompareRules(m: Env, r: Regs, a: Expr, b: Expr, n: nat)
    ensures var v, w := Eval(m, r, a), Eval(m, r, b);
            && Eval(m, r, Cmp(Eq(n), a, b)) == Bool(m.rel(EQ(n), v, w))
            && Eval(m, r, Cmp(Ne(n), a, b)) == Bool(!m.rel(EQ(n), v, w))
            && Eval(m, r, Cmp(Lt(n), a, b)) == Bool(m.rel(LT(n), v, w))
            && Eval(m, r, Cmp(Gt(n), a, b)) == Bool(m.rel(LT(n), w, v))
            && Eval(m, r, Cmp(Le(n), a, b)) == Bool(m.rel(LE(n), v, w))
            && Eval(m, r, Cmp(Ge(n), a, b)) == Bool(m.rel(LE(n), w, v))
  {
    hide Eval;
    CompareRule(m, r, Eq(n), a, b);
    CompareRule(m, r, Ne(n), a, b);
    CompareRule(m, r, Lt(n), a, b);
    CompareRule(m, r, Gt(n), a, b);
    CompareRule(m, r, Le(n), a, b);
    CompareRule(m, r, Ge(n), a, b);
  }

  lemma CompareRule(m: Env, r: Regs, op: Comparison, a: Expr, b: Expr)
    ensures Eval(m, r, Cmp(op, a, b)) == Bool(Compares(m, op, Eval(m, r, a), Eval(m, r, b)))
  {
    hide Compares, Get, Upval, Truthy;
  }

  /** Section 2.5.3: `and` and `or` stop at their first operand if it is false, or true; nil and false are false. */
  lemma LogicRules(m: Env, r: Regs, a: Expr, b: Expr)
    ensures var v, w := Eval(m, r, a), Eval(m, r, b);
            var untrue := v == Nil || v == Bool(false);
            && Eval(m, r, And(a, b)) == (if untrue then v else w) && Eval(m, r, Or(a, b)) == (if untrue then w else v)
            && Eval(m, r, Neg(a)) == Bool(untrue)
  {
    hide Compares, Get, Upval;
  }
}
