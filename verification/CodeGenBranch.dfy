/** When the code of a condition with comparisons branches on its truth. */
module CodeGenBranch {
  import opened Common
  import opened JumpCode
  import opened CodeGen
  import opened CodeGenMeaning
  import opened CodeGenWays
  import opened CodeGenTheorem

  /** Some variables and answers of comparisons may give the expression this truth. */
  predicate Possible(e: Expr, truth: bool) {
    match e
    case Lit(v) => Truthy(v) == truth
    case Str(_) => truth
    case Neg(a) => Possible(a, !truth)
    case And(a, b) => if truth then Possible(a, true) && Possible(b, true)
                      else Possible(a, false) || (Possible(a, true) && Possible(b, false))
    case Or(a, b) => if truth then Possible(a, true) || (Possible(a, false) && Possible(b, true))
                     else Possible(a, false) && Possible(b, false)
    case _ => true
  }

  /**
    No answer of a comparison is hidden by a right operand that is never true behind `and`, or never false behind
    `or`.
   */
  predicate Shown(e: Expr) {
    match e
    case Neg(a) => Shown(a)
    case And(a, b) => Shown(a) && Shown(b) && (NoComparisons(a) || Possible(b, true))
    case Or(a, b) => Shown(a) && Shown(b) && (NoComparisons(a) || Possible(b, false))
    case Cmp(_, a, b) => Shown(a) && Shown(b)
    case _ => true
  }

  /** The same within the operands of comparisons. */
  predicate OperandsShown(e: Expr) {
    match e
    case Neg(a) => OperandsShown(a)
    case And(a, b) => OperandsShown(a) && OperandsShown(b)
    case Or(a, b) => OperandsShown(a) && OperandsShown(b)
    case Cmp(_, a, b) => Shown(a) && Shown(b)
    case _ => true
  }

  /**
    No comparison that control can come to has an operand with a stale value, unless its answer cannot matter: a
    wrong answer on the left of `and` does no harm when the right side is never true, and of `or` when it is never
    false.
   */
  predicate BranchRight(s: State, e: Expr, tagged: bool)
    decreases e
  {
    match e
    case Neg(a) => BranchRight(s, a, tagged)
    case And(a, b) =>
      var (s1, d1) := Compile(s, a);
      var s2, l := GoIf(s1, d1, true).0, LeaveWays(true, ShapeFor(a), Ways(a, tagged));
      (Possible(b, true) ==> BranchRight(s, a, tagged))
      && forall u: bool :: Here(true, u) in l ==> BranchRight(s2, b, u)
    case Or(a, b) =>
      var (s1, d1) := Compile(s, a);
      var s2, l := GoIf(s1, d1, false).0, LeaveWays(false, ShapeFor(a), Ways(a, tagged));
      (Possible(b, false) ==> BranchRight(s, a, tagged))
      && forall u: bool :: Here(true, u) in l ==> BranchRight(s2, b, u)
    case Cmp(_, _, _) => ComparesRight(s, e, tagged)
    case _ => true
  }

  lemma JoinBranch(s: State, a: Expr, b: Expr, cond: bool, t: bool)
    ensures var (s1, d1) := Compile(s, a);
            BranchRight(s, Join(cond, a, b), t) <==>
              (Possible(b, cond) ==> BranchRight(s, a, t))
              && forall u: bool :: Here(true, u) in LeaveWays(cond, ShapeFor(a), Ways(a, t)) ==>
                                     BranchRight(GoIf(s1, d1, cond).0, b, u)
    ensures OperandsShown(Join(cond, a, b)) <==> OperandsShown(a) && OperandsShown(b)
  {
    hide GoIf, LeaveWays, Ways, Possible, Compile;
  }

  lemma JoinPossible(a: Expr, b: Expr, cond: bool)
    ensures Possible(Join(cond, a, b), cond) <==> Possible(a, cond) && Possible(b, cond)
    ensures Possible(Join(cond, a, b), !cond) <==> Possible(a, !cond) || (Possible(a, cond) && Possible(b, !cond))
  {
  }

  lemma {:induction false} PossibleEval(m: Env, r: Regs, e: Expr)
    ensures Possible(e, Truthy(Eval(m, r, e)))
  {
    match e
    case Neg(a) => PossibleEval(m, r, a);
    case And(a, b) => PossibleEval(m, r, a); PossibleEval(m, r, b);
    case Or(a, b) => PossibleEval(m, r, a); PossibleEval(m, r, b);
    case _ =>
  }

  lemma {:induction false} PossibleSeen(m: Env, s: State, e: Expr, r: Regs, t: Option<V>)
    ensures Possible(e, Truthy(Seen(m, s, e, r, t)))
    decreases e
  {
    hide GoIf, GoIfTo, Act, Compile;
    match e
    case Neg(a) => PossibleSeen(m, s, a, r, t);
    case And(a, b) =>
      var (s1, d1) := Compile(s, a);
      PossibleSeen(m, s, a, r, t);
      PossibleSeen(m, GoIf(s1, d1, true).0, b, r, GoIfTo(s1, d1, true, Act(m, s, a, r, t)).tag);
    case Or(a, b) =>
      var (s1, d1) := Compile(s, a);
      PossibleSeen(m, s, a, r, t);
      PossibleSeen(m, GoIf(s1, d1, false).0, b, r, GoIfTo(s1, d1, false, Act(m, s, a, r, t)).tag);
    case _ =>
  }

  /** Then the answers of the code give the expression the truth that it has in the language. */
  lemma {:induction false} TruthSeen(m: Env, s: State, e: Expr, r: Regs, t: Option<V>)
    requires BranchRight(s, e, t.Some?)
    ensures Truthy(Seen(m, s, e, r, t)) == Truthy(Eval(m, r, e))
    decreases e, 1
  {
    hide GoIf, GoIfTo, Act, Compile, Ways, LeaveWays, Possible, Exact, AfterFirst, Compares, ComparesRight;
    match e
    case Neg(a) => TruthSeen(m, s, a, r, t);
    case And(a, b) => JoinIs(a, b); JoinTruth(m, s, a, b, true, r, t);
    case Or(a, b) => JoinIs(a, b); JoinTruth(m, s, a, b, false, r, t);
    case Cmp(_, _, _) => SeenIsEval(m, s, e, r, t);
    case _ =>
  }

  lemma {:induction false} JoinTruth(m: Env, s: State, a: Expr, b: Expr, cond: bool, r: Regs, t: Option<V>)
    requires BranchRight(s, Join(cond, a, b), t.Some?)
    ensures Truthy(Seen(m, s, Join(cond, a, b), r, t)) == Truthy(Eval(m, r, Join(cond, a, b)))
    decreases Join(cond, a, b), 0
  {
    hide *;
    JoinSmaller(a, b, cond);
    JoinBranch(s, a, b, cond, t.Some?);
    SeenJoin(m, s, a, b, cond, r, t);
    JoinEval(m, r, a, b, cond);
    var (s1, d1) := Compile(s, a);
    var s2, q := GoIf(s1, d1, cond).0, GoIfTo(s1, d1, cond, Act(m, s, a, r, t));
    PossibleEval(m, r, b);
    PossibleSeen(m, s2, b, r, q.tag);
    if Possible(b, cond) {
      TruthSeen(m, s, a, r, t);
      var x := SecondSeen(m, s, a, cond, r, t);
      if Truthy(Seen(m, s, a, r, t)) == cond {
        LeaveIn(cond, ShapeFor(a), Ways(a, t.Some?), x);
        TruthSeen(m, s2, b, r, q.tag);
      }
    }
  }

  /** The code of such a condition branches on its truth, whatever its form and its variables and comparisons are. */
  lemma BranchSuffices(m: Env, s: State, e: Expr, r: Regs, t: Option<V>)
    requires BranchRight(s, e, t.Some?)
    ensures TruthOf(Act(m, s, e, r, t)) == Truthy(Eval(m, r, e))
  {
    hide *;
    var w := SeenSound(m, s, e, r, t);
    TruthFits(Act(m, s, e, r, t), w, Seen(m, s, e, r, t));
    TruthSeen(m, s, e, r, t);
  }

  /** Where nothing is hidden, all comparisons have to be right. */
  lemma {:induction false} ShownBranch(s: State, e: Expr, t: bool)
    requires Shown(e) && BranchRight(s, e, t)
    ensures ComparesRight(s, e, t)
    decreases e, 1
  {
    hide GoIf, Compile, Ways, LeaveWays, Possible, Exact, AfterFirst, NoComparisons;
    match e
    case Neg(a) => ShownBranch(s, a, t);
    case And(a, b) => JoinIs(a, b); ShownJoin(s, a, b, true, t);
    case Or(a, b) => JoinIs(a, b); ShownJoin(s, a, b, false, t);
    case _ =>
  }

  lemma {:induction false} ShownJoin(s: State, a: Expr, b: Expr, cond: bool, t: bool)
    requires Shown(Join(cond, a, b)) && BranchRight(s, Join(cond, a, b), t)
    ensures ComparesRight(s, Join(cond, a, b), t)
    decreases Join(cond, a, b), 0
  {
    hide *;
    JoinSmaller(a, b, cond);
    JoinBranch(s, a, b, cond, t);
    JoinShown(a, b, cond);
    JoinRight(s, a, b, cond, t);
    if NoComparisons(a) { NoComparisonsRight(s, a, t); } else { ShownBranch(s, a, t); }
    var (s1, d1) := Compile(s, a);
    forall u: bool | Here(true, u) in LeaveWays(cond, ShapeFor(a), Ways(a, t))
      ensures ComparesRight(GoIf(s1, d1, cond).0, b, u)
    {
      ShownBranch(GoIf(s1, d1, cond).0, b, u);
    }
  }

  lemma JoinShown(a: Expr, b: Expr, cond: bool)
    ensures Shown(Join(cond, a, b)) <==> Shown(a) && Shown(b) && (NoComparisons(a) || Possible(b, cond))
  {
    hide Possible, NoComparisons;
  }

  lemma {:induction false} ShownOperands(e: Expr)
    requires Shown(e)
    ensures OperandsShown(e)
  {
    match e
    case Neg(a) => ShownOperands(a);
    case And(a, b) => ShownOperands(a); ShownOperands(b);
    case Or(a, b) => ShownOperands(a); ShownOperands(b);
    case _ =>
  }
}
