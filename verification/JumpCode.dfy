/** The instructions that boolean expressions compile to, and how the interpreter runs them forwards. */
module JumpCode {
  import opened Common

  datatype V = Nil | Bool(b: bool) | Other(n: int)

  /** `l_isfalse`, negated. */
  predicate Truthy(v: V) { !(v.Nil? || v == Bool(false)) }

  /** The number tells comparisons apart: each may call a metamethod, with an answer of its own. */
  datatype CmpOp = EQ(site: nat) | LT(site: nat) | LE(site: nat)

  /** An operand is a register or a constant. */
  datatype RK = Reg(r: nat) | Const(k: nat)

  const NO_JUMP: int := -1

  /**
    Instructions. A jump to `NO_JUMP` is pending: it is in a list that waits for its target. A missing target
    register is one that is still to be set: the `NO_REG` of a TESTSET, or a relocatable instruction. `Foreign` is
    any instruction that boolean expressions do not compile to.
   */
  datatype Ins =
    | Move(a: nat, b: nat)
    | LoadK(a: nat, k: nat)
    | LoadBool(a: nat, v: bool, skip: bool)
    | LoadNil(a: nat, b: nat)
    | GetUpval(to: Option<nat>, u: nat)
    | Not(to: Option<nat>, b: nat)
    | Compare(op: CmpOp, cond: bool, x: RK, y: RK)
    | Test(b: nat, c: bool)
    | TestSet(to: Option<nat>, b: nat, c: bool)
    | Jmp(dest: int)
    | Foreign(word: int)

  predicate IsTest(i: Ins) { i.Compare? || i.Test? || i.TestSet? }

  type Regs = map<nat, V>

  function Get(r: Regs, a: nat): V { if a in r then r[a] else Nil }

  function Put(r: Regs, to: Option<nat>, v: V): Regs {
    if to.Some? then r[to.value := v] else r
  }

  function PutNils(r: Regs, a: nat, b: nat): Regs
    decreases b
  {
    if b < a then r else if b == 0 then r[b := Nil] else PutNils(r[b := Nil], a, b - 1)
  }

  /** Upvalues, the constant table, and the outcome of comparisons. */
  datatype Env = Env(up: seq<V>, k: seq<V>, rel: (CmpOp, V, V) -> bool)

  function Upval(m: Env, u: nat): V { if u < |m.up| then m.up[u] else Nil }

  function Constant(m: Env, k: nat): V { if k < |m.k| then m.k[k] else Nil }

  function Operand(m: Env, r: Regs, x: RK): V {
    match x
    case Reg(a) => Get(r, a)
    case Const(k) => Constant(m, k)
  }

  /** The condition under which a test takes the jump that follows it. */
  predicate Takes(m: Env, r: Regs, i: Ins) {
    match i
    case Compare(op, cond, x, y) => m.rel(op, Operand(m, r, x), Operand(m, r, y)) == cond
    case Test(b, c) => Truthy(Get(r, b)) == c
    case TestSet(_, b, c) => Truthy(Get(r, b)) == c
    case _ => false
  }

  /** The registers after an instruction; a TESTSET stores only when it jumps. */
  function Effect(m: Env, r: Regs, i: Ins): Regs {
    match i
    case Move(a, b) => r[a := Get(r, b)]
    case LoadK(a, k) => r[a := Constant(m, k)]
    case LoadBool(a, b, _) => r[a := Bool(b)]
    case LoadNil(a, b) => PutNils(r, a, b)
    case GetUpval(to, u) => Put(r, to, Upval(m, u))
    case Not(to, b) => Put(r, to, Bool(!Truthy(Get(r, b))))
    case TestSet(to, b, c) => if Truthy(Get(r, b)) == c then Put(r, to, Get(r, b)) else r
    case _ => r
  }

  /** Execution falls off the end of the code, or leaves through a pending jump, or where other code begins. */
  datatype Out = Fall(r: Regs) | Exit(j: nat, r: Regs)

  /** The next place: a test that is not taken skips the jump after it. */
  function Next(m: Env, r: Regs, i: Ins, p: nat): nat {
    match i
    case LoadBool(_, _, skip) => if skip then p + 2 else p + 1
    case Jmp(dest) => if dest > p then dest else p + 1
    case _ => if IsTest(i) && !Takes(m, r, i) then p + 2 else p + 1
  }

  /** A pending jump, a jump back, as loops end, or an instruction of other code. */
  predicate Ends(c: seq<Ins>, p: nat) { p < |c| && (c[p].Foreign? || (c[p].Jmp? && c[p].dest <= p)) }

  /** Run forwards from `p`; every jump of these expressions is forward. */
  function Run(m: Env, c: seq<Ins>, p: nat, r: Regs): Out
    decreases |c| - p
  {
    if p >= |c| then Fall(r)
    else if Ends(c, p) then Exit(p, r)
    else Run(m, c, Next(m, r, c[p], p), Effect(m, r, c[p]))
  }

  predicate Pending(c: seq<Ins>, j: nat) { j < |c| && c[j] == Jmp(NO_JUMP) }

  /**
    Tests are followed by jumps, skips by another LOADBOOL; jumps go not past the end, and forward never to a test's
    own jump; jumps back carry no value.
   */
  ghost predicate WellFormed(c: seq<Ins>) {
    forall i :: 0 <= i < |c| ==> OkAt(c, i)
  }

  predicate OkAt(c: seq<Ins>, i: nat)
    requires i < |c|
  {
    && (IsTest(c[i]) ==> i + 1 < |c| && c[i + 1].Jmp?)
    && (c[i].TestSet? && c[i].to.Some? ==> !Pending(c, i + 1))
    && (c[i].LoadBool? && c[i].skip ==> i + 2 <= |c| && c[i + 1].LoadBool?)
    && (c[i].Jmp? && c[i].dest != NO_JUMP ==> 0 <= c[i].dest <= |c|)
    && (c[i].Jmp? && c[i].dest > i ==> !IsTest(c[c[i].dest - 1]))
    && (c[i].Jmp? && c[i].dest != NO_JUMP && c[i].dest <= i ==> !Carries(c, i))
  }

  /** The control of jump `j` is a TESTSET that waits for its register. */
  predicate Carries(c: seq<Ins>, j: nat) {
    1 <= j <= |c| && c[j - 1].TestSet?
  }

  /**
    `d` continues `c`: it is `c` with some pending jumps fixed, the TESTSETs that control them given a register or
    turned into TESTs, and more code behind.
   */
  ghost predicate Continues(c: seq<Ins>, d: seq<Ins>) {
    && |c| <= |d|
    && forall i :: 0 <= i < |c| ==> SameAt(c, d, i)
  }

  predicate SameAt(c: seq<Ins>, d: seq<Ins>, i: nat)
    requires i < |c| <= |d|
  {
    || d[i] == c[i]
    || (c[i] == Jmp(NO_JUMP) && d[i].Jmp?)
    || (c[i].TestSet? && c[i].to.None? && Pending(c, i + 1)
        && (d[i] == Test(c[i].b, c[i].c) || (d[i].TestSet? && d[i].b == c[i].b && d[i].c == c[i].c)))
  }

  /** What the control of a jump stored on the way to it. */
  function Stored(d: seq<Ins>, j: nat, r: Regs): Regs
    requires j <= |d|
  {
    if Carries(d, j) then Put(r, d[j - 1].to, Get(r, d[j - 1].b)) else r
  }

  predicate Between(c: seq<Ins>, p: nat) {
    1 <= p <= |c| && IsTest(c[p - 1])
  }

  /** A continuation runs like the original until that ends or leaves, and then goes on from there. */
  lemma {:induction false} RunContinues(m: Env, c: seq<Ins>, d: seq<Ins>, p: nat, r: Regs)
    requires WellFormed(c) && Continues(c, d) && p <= |c| && !Between(c, p)
    ensures var out := Run(m, c, p, r);
            && (out.Exit? ==> Ends(c, out.j) && p <= out.j)
            && Run(m, d, p, r) == if out.Fall? then Run(m, d, |c|, out.r) else Run(m, d, out.j, Stored(d, out.j, out.r))
    decreases |c| - p
  {
    hide WellFormed, Continues, Run, Effect, Takes, Next, OkAt, SameAt, Stored;
    if p >= |c| {
      RunOver(m, c, p, r);
    } else {
      StepOk(c, d, p);
      if Ends(c, p) {
        RunStays(m, c, d, p, r);
      } else if IsTest(c[p]) && Takes(m, r, c[p]) {
        RunTaken(m, c, d, p, r);
        StepOk(c, d, p + 1);
        if c[p + 1].dest > p + 1 {
          RunJumps(m, c, d, p + 1, Effect(m, r, c[p]));
          RunContinues(m, c, d, c[p + 1].dest, Effect(m, r, c[p]));
        }
      } else {
        RunPasses(m, c, d, p, r);
        RunContinues(m, c, d, Next(m, r, c[p], p), Effect(m, r, c[p]));
      }
    }
  }

  lemma RunOver(m: Env, c: seq<Ins>, p: nat, r: Regs)
    requires p >= |c|
    ensures Run(m, c, p, r) == Fall(r)
  {
  }

  /** At a jump that leaves. */
  lemma RunStays(m: Env, c: seq<Ins>, d: seq<Ins>, p: nat, r: Regs)
    requires WellFormed(c) && Continues(c, d) && !Between(c, p) && Ends(c, p)
    ensures Run(m, c, p, r) == Exit(p, r) && p <= |d| && Stored(d, p, r) == r
  {
    StepOk(c, d, p);
    if p > 0 { StepOk(c, d, p - 1); }
  }

  /** A test that is taken: its jump leads on, in both, or leaves the first. */
  lemma RunTaken(m: Env, c: seq<Ins>, d: seq<Ins>, p: nat, r: Regs)
    requires WellFormed(c) && Continues(c, d) && p < |c| && IsTest(c[p]) && Takes(m, r, c[p])
    ensures p + 1 < |c| <= |d| && c[p + 1].Jmp?
    ensures var q := Effect(m, r, c[p]);
            && (c[p + 1].dest <= p + 1 ==> Ends(c, p + 1) && Run(m, c, p, r) == Exit(p + 1, q)
                                           && Run(m, d, p, r) == Run(m, d, p + 1, Stored(d, p + 1, q)))
            && (c[p + 1].dest > p + 1 ==> Run(m, c, p, r) == Run(m, c, p + 1, q)
                                          && Run(m, d, p, r) == Run(m, d, p + 1, q))
  {
    StepOk(c, d, p);
    StepOk(c, d, p + 1);
    assert Next(m, r, c[p], p) == p + 1;
    assert Next(m, r, d[p], p) == p + 1;
    assert Run(m, d, p, r) == Run(m, d, p + 1, Effect(m, r, d[p]));
  }

  lemma RunJumps(m: Env, c: seq<Ins>, d: seq<Ins>, p: nat, r: Regs)
    requires p < |c| <= |d| && c[p].Jmp? && d[p] == c[p] && c[p].dest > p
    ensures Run(m, c, p, r) == Run(m, c, c[p].dest, r) && Run(m, d, p, r) == Run(m, d, c[p].dest, r)
  {
  }

  /** Any other instruction. */
  lemma RunPasses(m: Env, c: seq<Ins>, d: seq<Ins>, p: nat, r: Regs)
    requires WellFormed(c) && Continues(c, d) && p < |c| && !Ends(c, p)
             && !(IsTest(c[p]) && Takes(m, r, c[p]))
    ensures var n, q := Next(m, r, c[p], p), Effect(m, r, c[p]);
            && p < n <= |c| && !Between(c, n) && Run(m, c, p, r) == Run(m, c, n, q)
            && p <= |d| && n <= |d| && Run(m, d, p, r) == Run(m, d, n, q)
  {
    StepOk(c, d, p);
    assert Next(m, r, d[p], p) == Next(m, r, c[p], p);
    assert Effect(m, r, d[p]) == Effect(m, r, c[p]);
  }

  lemma StepOk(c: seq<Ins>, d: seq<Ins>, i: nat)
    requires WellFormed(c) && Continues(c, d) && i < |c|
    ensures OkAt(c, i) && i < |d| && SameAt(c, d, i)
    ensures IsTest(c[i]) ==> i + 1 < |c| && c[i + 1].Jmp? && !Between(c, i + 2)
    ensures c[i].LoadBool? && c[i].skip ==> i + 2 <= |c| && !Between(c, i + 2)
    ensures c[i].Jmp? && c[i].dest > i ==> c[i].dest <= |c| && !Between(c, c[i].dest)
  {
    assert OkAt(c, i) && SameAt(c, d, i);
  }

  // Resuming at a jump

  /** A run that begins at a jump, after the test that controls it has been passed; or anywhere else. */
  function RunAt(m: Env, c: seq<Ins>, p: nat, r: Regs): Out
    requires p <= |c|
  {
    Run(m, c, p, Stored(c, p, r))
  }

  /** A place where runs may begin. */
  predicate StartOk(c: seq<Ins>, p: nat) {
    p <= |c| && (!Between(c, p) || (p < |c| && c[p].Jmp?))
  }

  /** The same for runs that begin at a jump. */
  lemma RunAtContinues(m: Env, c: seq<Ins>, d: seq<Ins>, p: nat, r: Regs)
    requires WellFormed(c) && Continues(c, d) && StartOk(c, p)
    ensures |c| <= |d|
    ensures var out := RunAt(m, c, p, r);
            && (out.Exit? ==> Ends(c, out.j) && p <= out.j)
            && RunAt(m, d, p, r) == if out.Fall? then Run(m, d, |c|, out.r) else RunAt(m, d, out.j, out.r)
  {
    hide WellFormed, Continues;
    ContinuesLength(c, d);
    if !Between(c, p) {
      StartStored(c, d, p, r);
      RunContinues(m, c, d, p, r);
    } else {
      StepOk(c, d, p);
      StepOk(c, d, p - 1);
      if c[p].dest > p { RunContinues(m, c, d, c[p].dest, Stored(c, p, r)); }
    }
  }

  lemma ContinuesLength(c: seq<Ins>, d: seq<Ins>)
    requires Continues(c, d)
    ensures |c| <= |d|
  {
  }

  lemma StartStored(c: seq<Ins>, d: seq<Ins>, p: nat, r: Regs)
    requires WellFormed(c) && Continues(c, d) && p <= |c| && !Between(c, p)
    ensures Stored(c, p, r) == r && p <= |d| && Stored(d, p, r) == r
  {
    if p > 0 { StepOk(c, d, p - 1); }
  }
}
