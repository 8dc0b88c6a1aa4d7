/** Operator precedence: `subexpr` and its table of priorities (`lparser.c`). */
module Priorities {
  import opened Common

  datatype Op =
    | Add | Sub | Mul | Div | Mod | Pow | Concat | Ne | Eq | Lt | Le | Gt | Ge | And | Or
    | Not | Len

  /** An atom stands for any simple expression but one in parentheses. */
  datatype Token = Atom(n: int) | Open | Close | Sym(op: Op)

  /** `getunopr`. */
  predicate IsUnary(t: Token) { t.Sym? && (t.op.Not? || t.op.Sub? || t.op.Len?) }

  /** `getbinopr`. */
  predicate IsBinary(t: Token) { t.Sym? && !t.op.Not? && !t.op.Len? }

  /** The table of priorities. */
  function LeftPriority(op: Op): nat {
    match op
    case Add => 6
    case Sub => 6
    case Mul => 7
    case Div => 7
    case Mod => 7
    case Pow => 10
    case Concat => 5
    case And => 2
    case Or => 1
    case _ => 3
  }

  function RightPriority(op: Op): nat {
    match op
    case Pow => 9
    case Concat => 4
    case _ => LeftPriority(op)
  }

  const UNARY_PRIORITY: nat := 8

  datatype Tree = Leaf(n: int) | Paren(e: Tree) | Unary(op: Op, e: Tree) | Binary(op: Op, l: Tree, r: Tree)

  datatype Parsed = Parsed(t: Tree, rest: seq<Token>) | Bad

  // The parser

  /** `simpleexp`, or an operand with a unary operator. */
  function Operand(ts: seq<Token>): (r: Parsed)
    ensures r.Parsed? ==> |r.rest| < |ts|
    decreases |ts|, 0
  {
    if ts == [] then Bad
    else if IsUnary(ts[0]) then
      var r := SubExpr(ts[1..], UNARY_PRIORITY);
      if r.Bad? then Bad else Parsed(Unary(ts[0].op, r.t), r.rest)
    else if ts[0].Atom? then Parsed(Leaf(ts[0].n), ts[1..])
    else if ts[0].Open? then
      var r := SubExpr(ts[1..], 0);
      if r.Bad? || r.rest == [] || !r.rest[0].Close? then Bad else Parsed(Paren(r.t), r.rest[1..])
    else Bad
  }

  /** The loop of `subexpr`: expand while operators have priorities higher than `limit`. */
  function Expand(t: Tree, ts: seq<Token>, limit: nat): (r: Parsed)
    ensures r.Parsed? ==> |r.rest| <= |ts|
    decreases |ts|, 2
  {
    if ts == [] || !IsBinary(ts[0]) || LeftPriority(ts[0].op) <= limit then Parsed(t, ts)
    else
      var r := SubExpr(ts[1..], RightPriority(ts[0].op));
      if r.Bad? then Bad else Expand(Binary(ts[0].op, t, r.t), r.rest, limit)
  }

  /** `subexpr`; the operator that it returns is the first of the rest. */
  function SubExpr(ts: seq<Token>, limit: nat): (r: Parsed)
    ensures r.Parsed? ==> |r.rest| < |ts|
    decreases |ts|, 1
  {
    var r := Operand(ts);
    if r.Bad? then Bad else Expand(r.t, r.rest, limit)
  }

  // What trees the table allows

  function Flat(t: Tree): seq<Token> {
    match t
    case Leaf(n) => [Atom(n)]
    case Paren(e) => [Open] + Flat(e) + [Close]
    case Unary(op, e) => [Sym(op)] + Flat(e)
    case Binary(op, l, r) => Flat(l) + [Sym(op)] + Flat(r)
  }

  /** Every binary operator that begins the tree from the left binds more tightly than `limit`. */
  predicate Above(t: Tree, limit: nat) {
    t.Binary? ==> LeftPriority(t.op) > limit && Above(t.l, limit)
  }

  /** An operator of priority `p` behind the tree is not taken by an operand at its right end. */
  predicate Closed(t: Tree, p: nat) {
    match t
    case Unary(_, e) => p <= UNARY_PRIORITY && Closed(e, p)
    case Binary(op, _, r) => p <= RightPriority(op) && Closed(r, p)
    case _ => true
  }

  /** The trees that need no further parentheses. */
  predicate Proper(t: Tree) {
    match t
    case Leaf(_) => true
    case Paren(e) => Proper(e)
    case Unary(op, e) => IsUnary(Sym(op)) && Proper(e) && Above(e, UNARY_PRIORITY)
    case Binary(op, l, r) =>
      IsBinary(Sym(op)) && Proper(l) && Proper(r) && Closed(l, LeftPriority(op)) && Above(r, RightPriority(op))
  }

  /** The rest begins with no binary operator that binds more tightly than `limit`, or that the tree would take. */
  predicate Stops(t: Tree, rest: seq<Token>, limit: nat) {
    rest != [] && IsBinary(rest[0]) ==> LeftPriority(rest[0].op) <= limit && Closed(t, LeftPriority(rest[0].op))
  }

  predicate Fits(t: Tree, rest: seq<Token>) {
    rest != [] && IsBinary(rest[0]) ==> Closed(t, LeftPriority(rest[0].op))
  }

  lemma OperandSound(ts: seq<Token>)
    ensures var r := Operand(ts); r.Parsed? ==>
              Flat(r.t) + r.rest == ts && Proper(r.t) && !r.t.Binary? && Fits(r.t, r.rest)
    decreases |ts|, 0
  {
    hide SubExpr, LeftPriority, RightPriority;
    if ts != [] {
      if IsUnary(ts[0]) {
        SubExprSound(ts[1..], UNARY_PRIORITY);
        var r := SubExpr(ts[1..], UNARY_PRIORITY);
        if r.Parsed? { FlatUnary(ts, r.t, r.rest); }
      } else if ts[0].Open? {
        SubExprSound(ts[1..], 0);
        var r := SubExpr(ts[1..], 0);
        if r.Parsed? && r.rest != [] && r.rest[0].Close? { FlatParen(ts, r.t, r.rest); }
      }
    }
  }

  lemma FlatUnary(ts: seq<Token>, t: Tree, rest: seq<Token>)
    requires ts != [] && ts[0].Sym? && ts[1..] == Flat(t) + rest
    ensures Flat(Unary(ts[0].op, t)) + rest == ts
  {
    assert ts == [ts[0]] + (Flat(t) + rest);
  }

  lemma FlatParen(ts: seq<Token>, t: Tree, rest: seq<Token>)
    requires ts != [] && ts[0].Open? && ts[1..] == Flat(t) + rest && rest != [] && rest[0].Close?
    ensures Flat(Paren(t)) + rest[1..] == ts
  {
    assert ts == [Open] + (Flat(t) + ([Close] + rest[1..]));
  }

  lemma {:induction false} ExpandSound(t: Tree, ts: seq<Token>, limit: nat)
    requires Proper(t) && Above(t, limit) && Fits(t, ts)
    ensures var r := Expand(t, ts, limit); r.Parsed? ==>
              Flat(r.t) + r.rest == Flat(t) + ts && Proper(r.t) && Above(r.t, limit) && Stops(r.t, r.rest, limit)
    decreases |ts|, 2
  {
    hide LeftPriority, RightPriority, SubExpr;
    if ts != [] && IsBinary(ts[0]) && LeftPriority(ts[0].op) > limit {
      var op := ts[0].op;
      SubExprSound(ts[1..], RightPriority(op));
      var r := SubExpr(ts[1..], RightPriority(op));
      if r.Parsed? {
        FlatBinary(op, t, r.t, ts, r.rest);
        ExpandSound(Binary(op, t, r.t), r.rest, limit);
      }
    }
  }

  lemma FlatBinary(op: Op, l: Tree, r: Tree, ts: seq<Token>, rest: seq<Token>)
    requires ts != [] && ts[0] == Sym(op) && ts[1..] == Flat(r) + rest
    ensures Flat(Binary(op, l, r)) + rest == Flat(l) + ts
  {
    assert ts == [Sym(op)] + (Flat(r) + rest);
  }

  /**
    `subexpr` builds a tree that the table allows: flattened it is what was read, its operators bind more tightly than
    the limit, and the operator it stops at does not.
   */
  lemma {:induction false} SubExprSound(ts: seq<Token>, limit: nat)
    ensures var r := SubExpr(ts, limit); r.Parsed? ==>
              Flat(r.t) + r.rest == ts && Proper(r.t) && Above(r.t, limit) && Stops(r.t, r.rest, limit)
    decreases |ts|, 1
  {
    OperandSound(ts);
    var r := Operand(ts);
    if r.Parsed? { ExpandSound(r.t, r.rest, limit); }
  }

  /** It reads the tokens of an allowed tree as that tree, and goes on behind it. */
  lemma {:induction false} ReadsTree(t: Tree, rest: seq<Token>, limit: nat)
    requires Proper(t) && Above(t, limit) && Fits(t, rest)
    ensures SubExpr(Flat(t) + rest, limit) == Expand(t, rest, limit)
    decreases t
  {
    hide LeftPriority, RightPriority;
    var ts := Flat(t) + rest;
    match t
    case Leaf(n) => assert ts[0] == Atom(n) && ts[1..] == rest;
    case Paren(e) =>
      var inner := [Close] + rest;
      assert ts == [Open] + (Flat(e) + inner);
      assert ts[1..] == Flat(e) + inner;
      AboveZero(e);
      ReadsTree(e, inner, 0);
      assert Expand(e, inner, 0) == Parsed(e, inner) && inner[1..] == rest;
    case Unary(op, e) =>
      assert ts == [Sym(op)] + (Flat(e) + rest);
      assert ts[1..] == Flat(e) + rest;
      ReadsTree(e, rest, UNARY_PRIORITY);
      assert Expand(e, rest, UNARY_PRIORITY) == Parsed(e, rest);
    case Binary(op, l, r) =>
      var more := [Sym(op)] + (Flat(r) + rest);
      assert ts == Flat(l) + more;
      assert more[0] == Sym(op) && more[1..] == Flat(r) + rest;
      ReadsTree(l, more, limit);
      ReadsTree(r, rest, RightPriority(op));
      assert Expand(r, rest, RightPriority(op)) == Parsed(r, rest);
  }

  /**
    What `subexpr` answers, exactly: it reads a tree and stops before the rest just when the table allows the tree with
    all its operators above the limit, and neither the tree nor the limit lets it take the next operator.
   */
  lemma SubExprExact(ts: seq<Token>, limit: nat, t: Tree, rest: seq<Token>)
    ensures SubExpr(ts, limit) == Parsed(t, rest) <==>
            ts == Flat(t) + rest && Proper(t) && Above(t, limit) && Stops(t, rest, limit)
  {
    hide LeftPriority, RightPriority, SubExpr, Proper, Flat, Closed;
    SubExprSound(ts, limit);
    if ts == Flat(t) + rest && Proper(t) && Above(t, limit) && Stops(t, rest, limit) { ReadsTree(t, rest, limit); }
  }

  lemma {:induction false} AboveZero(t: Tree)
    requires Proper(t)
    ensures Above(t, 0)
  {
    if t.Binary? { AboveZero(t.l); }
  }

  /** Parsing is the inverse of flattening on the allowed trees, whatever follows that is no operator. */
  lemma ParsesBack(t: Tree, rest: seq<Token>)
    requires Proper(t) && (rest != [] ==> !IsBinary(rest[0]))
    ensures SubExpr(Flat(t) + rest, 0) == Parsed(t, rest)
  {
    AboveZero(t);
    ReadsTree(t, rest, 0);
  }

  /** The table leaves no choice: an allowed tree is determined by its tokens. */
  lemma TreeUnique(t: Tree, u: Tree)
    requires Proper(t) && Proper(u) && Flat(t) == Flat(u)
    ensures t == u
  {
    ParsesBack(t, []);
    ParsesBack(u, []);
    assert Flat(t) + [] == Flat(t) && Flat(u) + [] == Flat(u);
  }

  // Printing

  predicate Plain(t: Tree) {
    match t
    case Leaf(_) => true
    case Paren(_) => false
    case Unary(op, e) => IsUnary(Sym(op)) && Plain(e)
    case Binary(op, l, r) => IsBinary(Sym(op)) && Plain(l) && Plain(r)
  }

  /** Parentheses where the table needs them. */
  function Parenthesized(t: Tree): (r: Tree)
    requires Plain(t)
    ensures Proper(r)
  {
    match t
    case Leaf(_) => t
    case Unary(op, e) =>
      var x := Parenthesized(e);
      Unary(op, if Above(x, UNARY_PRIORITY) then x else Paren(x))
    case Binary(op, l, r) =>
      var x, y := Parenthesized(l), Parenthesized(r);
      Binary(op, if Closed(x, LeftPriority(op)) then x
                 else Paren(x), if Above(y, RightPriority(op)) then y else Paren(y))
  }

  function Stripped(t: Tree): Tree {
    match t
    case Leaf(_) => t
    case Paren(e) => Stripped(e)
    case Unary(op, e) => Unary(op, Stripped(e))
    case Binary(op, l, r) => Binary(op, Stripped(l), Stripped(r))
  }

  lemma {:induction false} StripsBack(t: Tree)
    requires Plain(t)
    ensures Stripped(Parenthesized(t)) == t
  {
    match t
    case Unary(_, e) => StripsBack(e);
    case Binary(_, l, r) => StripsBack(l); StripsBack(r);
    case _ =>
  }

  /** Parsing what was printed with parentheses gives every tree back. */
  lemma PrintedParsesBack(t: Tree, rest: seq<Token>)
    requires Plain(t) && (rest != [] ==> !IsBinary(rest[0]))
    ensures var r := SubExpr(Flat(Parenthesized(t)) + rest, 0); r.Parsed? && r.rest == rest && Stripped(r.t) == t
  {
    ParsesBack(Parenthesized(t), rest);
    StripsBack(t);
  }

  // The grammar of the reference manual, section 2.5.6: each level is built of the one below it

  predicate OrE(t: Tree)
    decreases t, 8
  {
    (t.Binary? && t.op.Or? && OrE(t.l) && AndE(t.r)) || AndE(t)
  }

  predicate AndE(t: Tree)
    decreases t, 7
  {
    (t.Binary? && t.op.And? && AndE(t.l) && CompareE(t.r)) || CompareE(t)
  }

  predicate CompareE(t: Tree)
    decreases t, 6
  {
    || (t.Binary? && (t.op.Lt? || t.op.Gt? || t.op.Le? || t.op.Ge? || t.op.Ne? || t.op.Eq?)
        && CompareE(t.l) && ConcatE(t.r))
    || ConcatE(t)
  }

  /** `..` takes the rest to its right. */
  predicate ConcatE(t: Tree)
    decreases t, 5
  {
    (t.Binary? && t.op.Concat? && AddE(t.l) && ConcatE(t.r)) || AddE(t)
  }

  predicate AddE(t: Tree)
    decreases t, 4
  {
    (t.Binary? && (t.op.Add? || t.op.Sub?) && AddE(t.l) && MulE(t.r)) || MulE(t)
  }

  predicate MulE(t: Tree)
    decreases t, 3
  {
    (t.Binary? && (t.op.Mul? || t.op.Div? || t.op.Mod?) && MulE(t.l) && UnaryE(t.r)) || UnaryE(t)
  }

  predicate UnaryE(t: Tree)
    decreases t, 2
  {
    (t.Unary? && (t.op.Not? || t.op.Len? || t.op.Sub?) && UnaryE(t.e)) || PowE(t)
  }

  /** `^` binds more tightly than a unary operator on its left, and takes one on its right. */
  predicate PowE(t: Tree)
    decreases t, 1
  {
    (t.Binary? && t.op.Pow? && SimpleE(t.l) && UnaryE(t.r)) || SimpleE(t)
  }

  predicate SimpleE(t: Tree)
    decreases t, 0
  {
    t.Leaf? || (t.Paren? && OrE(t.e))
  }

  /** What may stand to the right of an operator of each priority. */
  ghost predicate RightLevels(t: Tree) {
    && (Proper(t) && Above(t, 0) <==> OrE(t)) && (Proper(t) && Above(t, 1) <==> AndE(t))
    && (Proper(t) && Above(t, 2) <==> CompareE(t)) && (Proper(t) && Above(t, 3) <==> ConcatE(t))
    && (Proper(t) && Above(t, 4) <==> ConcatE(t)) && (Proper(t) && Above(t, 6) <==> MulE(t))
    && (Proper(t) && Above(t, 7) <==> UnaryE(t)) && (Proper(t) && Above(t, 8) <==> UnaryE(t))
    && (Proper(t) && Above(t, 9) <==> UnaryE(t))
  }

  /** And to its left. */
  ghost predicate LeftLevels(t: Tree) {
    && (Proper(t) && Closed(t, 1) <==> OrE(t)) && (Proper(t) && Closed(t, 2) <==> AndE(t))
    && (Proper(t) && Closed(t, 3) <==> CompareE(t)) && (Proper(t) && Closed(t, 5) <==> AddE(t))
    && (Proper(t) && Closed(t, 6) <==> AddE(t)) && (Proper(t) && Closed(t, 7) <==> MulE(t))
    && (Proper(t) && Closed(t, 10) <==> SimpleE(t))
  }

  /** The levels of a binary tree, by those of its operands. */
  lemma BinaryLevels(t: Tree)
    requires t.Binary?
    ensures !SimpleE(t) && (PowE(t) <==> t.op.Pow? && SimpleE(t.l) && UnaryE(t.r)) && (UnaryE(t) <==> PowE(t))
    ensures MulE(t) <==> ((t.op.Mul? || t.op.Div? || t.op.Mod?) && MulE(t.l) && UnaryE(t.r)) || UnaryE(t)
    ensures AddE(t) <==> ((t.op.Add? || t.op.Sub?) && AddE(t.l) && MulE(t.r)) || MulE(t)
    ensures ConcatE(t) <==> (t.op.Concat? && AddE(t.l) && ConcatE(t.r)) || AddE(t)
    ensures CompareE(t) <==>
            ((t.op.Lt? || t.op.Gt? || t.op.Le? || t.op.Ge? || t.op.Ne? || t.op.Eq?) && CompareE(t.l) && ConcatE(t.r))
            || ConcatE(t)
    ensures AndE(t) <==> (t.op.And? && AndE(t.l) && CompareE(t.r)) || CompareE(t)
    ensures OrE(t) <==> (t.op.Or? && OrE(t.l) && AndE(t.r)) || AndE(t)
  {
  }

  /** Other trees are on all levels from their own on. */
  lemma OtherLevels(t: Tree)
    requires !t.Binary?
    ensures (PowE(t) <==> SimpleE(t)) && (UnaryE(t) <==> (t.Unary? && IsUnary(Sym(t.op)) && UnaryE(t.e)) || PowE(t))
    ensures (MulE(t) <==> UnaryE(t)) && (AddE(t) <==> MulE(t)) && (ConcatE(t) <==> AddE(t))
    ensures (CompareE(t) <==> ConcatE(t)) && (AndE(t) <==> CompareE(t)) && (OrE(t) <==> AndE(t))
    ensures SimpleE(t) <==> t.Leaf? || (t.Paren? && OrE(t.e))
  {
  }

  /** Each level includes the one below. */
  lemma LevelsInclude(t: Tree)
    ensures (SimpleE(t) ==> PowE(t)) && (PowE(t) ==> UnaryE(t)) && (UnaryE(t) ==> MulE(t)) && (MulE(t) ==> AddE(t))
    ensures (AddE(t) ==> ConcatE(t)) && (ConcatE(t) ==> CompareE(t))
    ensures (CompareE(t) ==> AndE(t)) && (AndE(t) ==> OrE(t))
  {
  }

  lemma {:induction false} LevelsExact(t: Tree)
    ensures RightLevels(t) && LeftLevels(t) && (Proper(t) <==> OrE(t))
  {
    hide OrE, AndE, CompareE, ConcatE, AddE, MulE, UnaryE, PowE, SimpleE;
    match t
    case Leaf(_) => OtherLevels(t);
    case Paren(e) => LevelsExact(e); OtherLevels(t);
    case Unary(op, e) =>
      LevelsExact(e);
      LevelsInclude(e);
      OtherLevels(t);
    case Binary(op, l, r) =>
      LevelsExact(l);
      LevelsExact(r);
      LevelsInclude(l);
      LevelsInclude(r);
      BinaryLevels(t);
  }

  /** An expression is read as a tree just when that is the tree of the grammar. */
  lemma GrammarExact(t: Tree, rest: seq<Token>)
    requires rest != [] ==> !IsBinary(rest[0])
    ensures SubExpr(Flat(t) + rest, 0) == Parsed(t, rest) <==> OrE(t)
  {
    hide SubExpr, Flat;
    LevelsExact(t);
    SubExprExact(Flat(t) + rest, 0, t, rest);
  }

  // Two operators

  /** The order of precedence, from low to high; the unary operators come between the last two. */
  function Tier(op: Op): nat {
    if op == Or then 1
    else if op == And then 2
    else if op == Lt || op == Gt || op == Le || op == Ge || op == Ne || op == Eq then 3
    else if op == Concat then 4
    else if op == Add || op == Sub then 5
    else if op == Mul || op == Div || op == Mod then 6
    else 8
  }

  /**
    Of two operators in a row the one of higher precedence is the inner one; of the same precedence the left one, but
    the right one of `..` and `^`.
   */
  lemma TwoOperators(p: Op, q: Op, x: int, y: int, z: int)
    requires IsBinary(Sym(p)) && IsBinary(Sym(q))
    ensures SubExpr([Atom(x), Sym(p), Atom(y), Sym(q), Atom(z)], 0) ==
              Parsed(if Tier(q) > Tier(p) || (p == q && (p == Concat || p == Pow))
                     then Binary(p, Leaf(x), Binary(q, Leaf(y), Leaf(z)))
                     else Binary(q, Binary(p, Leaf(x), Leaf(y)), Leaf(z)), [])
  {
    hide SubExpr, OrE, AndE, CompareE, ConcatE, AddE, MulE, UnaryE, PowE, SimpleE;
    var a, b, c := Leaf(x), Leaf(y), Leaf(z);
    var right, left := Binary(p, a, Binary(q, b, c)), Binary(q, Binary(p, a, b), c);
    var ts := [Atom(x), Sym(p), Atom(y), Sym(q), Atom(z)];
    assert Flat(Binary(q, b, c)) == [Atom(y), Sym(q), Atom(z)] && Flat(Binary(p, a, b)) == [Atom(x), Sym(p), Atom(y)];
    assert Flat(right) == ts && Flat(left) == ts && ts + [] == ts;
    LeafLevels(x);
    LeafLevels(y);
    LeafLevels(z);
    BinaryLevels(right.r);
    BinaryLevels(left.l);
    BinaryLevels(right);
    BinaryLevels(left);
    GrammarExact(right, []);
    GrammarExact(left, []);
  }

  lemma LeafLevels(n: int)
    ensures var t := Leaf(n);
            OrE(t) && AndE(t) && CompareE(t) && ConcatE(t) && AddE(t) && MulE(t) && UnaryE(t) && PowE(t) && SimpleE(t)
  {
    OtherLevels(Leaf(n));
  }

  /**
    A unary operator before its operand and a binary one: only `^` is taken into the operand, as in `-x^2`; behind a
    binary operator it belongs to the right operand.
   */
  lemma UnaryOperators(u: Op, p: Op, x: int, y: int)
    requires (u == Not || u == Len || u == Sub) && IsBinary(Sym(p))
    ensures SubExpr([Sym(u), Atom(x), Sym(p), Atom(y)], 0) ==
              Parsed(if p == Pow then Unary(u, Binary(Pow, Leaf(x), Leaf(y)))
                     else Binary(p, Unary(u, Leaf(x)), Leaf(y)), [])
    ensures SubExpr([Atom(x), Sym(p), Sym(u), Atom(y)], 0) == Parsed(Binary(p, Leaf(x), Unary(u, Leaf(y))), [])
  {
    hide SubExpr;
    var a, b := Leaf(x), Leaf(y);
    var inside, outside, behind := Unary(u, Binary(p, a, b)), Binary(p, Unary(u, a), b), Binary(p, a, Unary(u, b));
    var ts, us := [Sym(u), Atom(x), Sym(p), Atom(y)], [Atom(x), Sym(p), Sym(u), Atom(y)];
    assert Flat(Binary(p, a, b)) == [Atom(x), Sym(p), Atom(y)];
    assert Flat(Unary(u, a)) == [Sym(u), Atom(x)] && Flat(Unary(u, b)) == [Sym(u), Atom(y)];
    assert Flat(inside) == ts && Flat(outside) == ts && Flat(behind) == us && ts + [] == ts && us + [] == us;
    ParsesBack(behind, []);
    if p == Pow { ParsesBack(inside, []); } else { ParsesBack(outside, []); }
  }

  // In place

  class Parser {
    const tokens: seq<Token>
    var pos: nat

    predicate Valid()
      reads this
    {
      pos <= |tokens|
    }

    constructor (ts: seq<Token>)
      ensures Valid() && tokens == ts && pos == 0
    {
      tokens, pos := ts, 0;
    }

    /** `simpleexp`, and the operand of a unary operator. */
    method ReadOperand() returns (r: Option<Tree>)
      requires Valid()
      modifies this`pos
      ensures Valid() && pos >= old(pos) && (r.Some? ==> pos > old(pos))
      ensures var q := Operand(tokens[old(pos)..]); if r.Some? then q == Parsed(r.value, tokens[pos..]) else q == Bad
      decreases |tokens| - pos, 0
    {
      if pos == |tokens| { return None; }
      var t := tokens[pos];
      assert tokens[pos..][0] == t && tokens[pos..][1..] == tokens[pos + 1..];
      if IsUnary(t) {
        pos := pos + 1;
        var e := ReadSubExpr(UNARY_PRIORITY);
        return if e.Some? then Some(Unary(t.op, e.value)) else None;
      }
      if t.Atom? {
        pos := pos + 1;
        return Some(Leaf(t.n));
      }
      if !t.Open? { return None; }
      pos := pos + 1;
      var e := ReadSubExpr(0);
      if e == None || pos == |tokens| || !tokens[pos].Close? { return None; }
      assert tokens[pos..][1..] == tokens[pos + 1..];
      pos := pos + 1;
      r := Some(Paren(e.value));
    }

    /** `subexpr`. */
    method ReadSubExpr(limit: nat) returns (r: Option<Tree>)
      requires Valid()
      modifies this`pos
      ensures Valid() && pos >= old(pos) && (r.Some? ==> pos > old(pos))
      ensures var q := SubExpr(tokens[old(pos)..], limit);
              if r.Some? then q == Parsed(r.value, tokens[pos..]) else q == Bad
      decreases |tokens| - pos, 1
    {
      ghost var start := pos;
      var v := ReadOperand();
      if v == None { return None; }
      var t := v.value;
      while pos < |tokens| && IsBinary(tokens[pos]) && LeftPriority(tokens[pos].op) > limit
        invariant Valid() && pos > start && SubExpr(tokens[start..], limit) == Expand(t, tokens[pos..], limit)
        decreases |tokens| - pos
      {
        var op := tokens[pos].op;
        assert tokens[pos..][0] == Sym(op) && tokens[pos..][1..] == tokens[pos + 1..];
        pos := pos + 1;
        var v2 := ReadSubExpr(RightPriority(op));
        if v2 == None { return None; }
        t := Binary(op, t, v2.value);
      }
      r := Some(t);
    }
  }
}
