/** The control flow of `luaV_execute`, and the soundness of the verifier with respect to it. */
module Machine {
  import Common
  import opened Bytecode
  import opened Verifier

  // What one instruction does, as the interpreter's cases read it, without the verifier's table of operand modes

  /** The cases that compare or test, and skip the jump behind them or take it. */
  predicate Conditional(op: nat) {
    op == OP_EQ || op == OP_LT || op == OP_LE || op == OP_TEST || op == OP_TESTSET || op == OP_TFORLOOP
  }

  /**
    Control may go from `pc` to `next` within the function. A call returns to the next instruction; a
    RETURN leaves the function, and so does a tail call of a Lua function.
   */
  predicate Goes(pt: Proto, pc: nat, next: int)
    requires pc < |pt.code|
  {
    var i := pt.code[pc];
    var op := Op(i);
    if op == OP_LOADBOOL then next == (if C(i) != 0 then pc + 2 else pc + 1)
    else if op == OP_JMP || op == OP_FORPREP then next == pc + 1 + SBx(i)
    else if op == OP_FORLOOP then next == pc + 1 || next == pc + 1 + SBx(i)
    else if Conditional(op) then next == pc + 2 || (pc + 1 < |pt.code| && next == pc + 2 + SBx(pt.code[pc + 1]))
    else if op == OP_RETURN then false
    else if op == OP_SETLIST then next == (if C(i) == 0 then pc + 2 else pc + 1)
    else if op == OP_CLOSURE then next == pc + 1 + (if Bx(i) < |pt.p| then pt.p[Bx(i)].nups else 0)
    else next == pc + 1
  }

  /** The instruction at `pc` also reads the word at `q`: a test's jump, a SETLIST's count, a closure's upvalues. */
  predicate Reads(pt: Proto, pc: nat, q: int)
    requires pc < |pt.code|
  {
    var i := pt.code[pc];
    || (Conditional(Op(i)) && q == pc + 1)
    || (IsSetListZero(i) && q == pc + 1)
    || (Op(i) == OP_CLOSURE && Bx(i) < |pt.p| && pc < q <= pc + pt.p[Bx(i)].nups)
  }

  predicate UsesRk(r: nat, reg: nat) { !IsK(r) && reg == r }

  /** `KBx`, and the constants among `RKB` and `RKC`. */
  predicate UsesConstant(pt: Proto, pc: nat, j: nat)
    requires pc < |pt.code|
  {
    var i := pt.code[pc];
    var op, b, c := Op(i), B(i), C(i);
    if op == OP_LOADK || op == OP_GETGLOBAL || op == OP_SETGLOBAL then j == Bx(i)
    else if op == OP_GETTABLE || op == OP_SELF then IsK(c) && j == IndexK(c)
    else if op == OP_SETTABLE || Arithmetic(op) || op == OP_EQ || op == OP_LT || op == OP_LE then
      (IsK(b) && j == IndexK(b)) || (IsK(c) && j == IndexK(c))
    else false
  }

  predicate Arithmetic(op: nat) {
    op == OP_ADD || op == OP_SUB || op == OP_MUL || op == OP_DIV || op == OP_MOD || op == OP_POW
  }

  predicate UsesUpvalue(pt: Proto, pc: nat, j: nat)
    requires pc < |pt.code|
  {
    var i := pt.code[pc];
    || ((Op(i) == OP_GETUPVAL || Op(i) == OP_SETUPVAL) && j == B(i))
    || (Op(i) == OP_CLOSURE && exists q ::
          0 <= q < |pt.code| && Reads(pt, pc, q) && Op(pt.code[q]) == OP_GETUPVAL && j == B(pt.code[q]))
  }

  predicate UsesProto(pt: Proto, pc: nat, j: nat)
    requires pc < |pt.code|
  {
    Op(pt.code[pc]) == OP_CLOSURE && j == Bx(pt.code[pc])
  }

  /**
    Registers read or written. Those of an open call, up to the top of the stack, are not counted, nor are
    the slots above the results in which TFORLOOP prepares its call.
   */
  predicate UsesRegister(pt: Proto, pc: nat, reg: nat)
    requires pc < |pt.code|
  {
    var i := pt.code[pc];
    var op, a, b, c := Op(i), A(i), B(i), C(i);
    if op == OP_MOVE || op == OP_UNM || op == OP_NOT || op == OP_LEN || op == OP_TESTSET then reg == a || reg == b
    else if op == OP_LOADNIL then reg == b || a <= reg <= b
    else if op == OP_GETTABLE then reg == a || reg == b || UsesRk(c, reg)
    else if op == OP_SELF then reg == a || reg == a + 1 || reg == b || UsesRk(c, reg)
    else if op == OP_SETTABLE || Arithmetic(op) then reg == a || UsesRk(b, reg) || UsesRk(c, reg)
    else if op == OP_EQ || op == OP_LT || op == OP_LE then UsesRk(b, reg) || UsesRk(c, reg)
    else if op == OP_CONCAT then reg == a || b <= reg <= c
    else if op == OP_JMP then false
    else if op == OP_CALL then reg == a || (b != 0 && a <= reg < a + b) || (c != 0 && a <= reg < a + c - 1)
    else if op == OP_TAILCALL then reg == a || (b != 0 && a <= reg < a + b)
    else if op == OP_RETURN then b != 0 && a <= reg < a + b - 1
    else if op == OP_FORLOOP then a <= reg <= a + 3
    else if op == OP_FORPREP then a <= reg <= a + 2
    else if op == OP_TFORLOOP then a <= reg <= a + 2 + c
    else if op == OP_SETLIST then a <= reg <= a + b
    else if op == OP_VARARG then b != 0 && a <= reg < a + b - 1
    else if op == OP_CLOSURE then
      reg == a || exists q ::
          0 <= q < |pt.code| && Reads(pt, pc, q) && Op(pt.code[q]) == OP_MOVE && reg == B(pt.code[q])
    else reg == a
  }

  /** Everything the instruction touches exists. */
  ghost predicate InBounds(pt: Proto, pc: nat)
    requires pc < |pt.code|
  {
    && Op(pt.code[pc]) < NUM_OPCODES
    && (forall q :: Reads(pt, pc, q) ==> 0 <= q < |pt.code|)
    && (forall j: nat :: UsesConstant(pt, pc, j) ==> j < |pt.k|)
    && (forall j: nat :: UsesUpvalue(pt, pc, j) ==> j < pt.nups)
    && (forall j: nat :: UsesProto(pt, pc, j) ==> j < |pt.p|)
    && (forall r: nat :: UsesRegister(pt, pc, r) ==> r < pt.maxstacksize)
    && (Op(pt.code[pc]) == OP_GETGLOBAL || Op(pt.code[pc]) == OP_SETGLOBAL ==>
          Bx(pt.code[pc]) < |pt.k| && pt.k[Bx(pt.code[pc])].StringConstant?)
  }

  /** A point where execution may be: an instruction of the function, not the count of a SETLIST. */
  predicate At(pt: Proto, pc: int) {
    0 <= pc < |pt.code| && IsInstr(pt.code, pc)
  }

  /** LOADBOOL skips for every C but 0; the verifier looks at the skipped word for C = 1 only. */
  predicate SkipsOk(pt: Proto) {
    forall pc :: 0 <= pc < |pt.code| && At(pt, pc) && Op(pt.code[pc]) == OP_LOADBOOL && C(pt.code[pc]) >= 2 ==>
                   pc + 2 < |pt.code| && !IsSetListZero(pt.code[pc + 1])
  }

  // One step

  /** The last word is an instruction, a RETURN, so whatever runs before it is followed by a word. */
  lemma NotLast(pt: Proto, pc: nat)
    requires Accepted(pt) && At(pt, pc) && Op(pt.code[pc]) != OP_RETURN
    ensures pc + 1 < |pt.code|
  {
  }

  lemma NextAt(pt: Proto, pc: nat)
    requires Accepted(pt) && At(pt, pc) && Op(pt.code[pc]) != OP_RETURN && !IsSetListZero(pt.code[pc])
    ensures At(pt, pc + 1)
  {
  }

  /** A test is followed by a jump, and that by another instruction. */
  lemma TestGoes(pt: Proto, pc: nat, next: int)
    requires Accepted(pt) && At(pt, pc) && IsTest(Op(pt.code[pc])) && Goes(pt, pc, next)
    ensures At(pt, next)
  {
    assert InstrOk(pt, pc);
    NextAt(pt, pc);
    NextAt(pt, pc + 1);
    assert JumpOk(pt, pc + 2 + SBx(pt.code[pc + 1]));
  }

  lemma ClosureGoes(pt: Proto, pc: nat, next: int)
    requires Accepted(pt) && At(pt, pc) && Op(pt.code[pc]) == OP_CLOSURE && Goes(pt, pc, next)
    ensures At(pt, next)
  {
    var nup := pt.p[Bx(pt.code[pc])].nups;
    PlainWords(pt, pc, nup);
    assert nup > 0 ==> Op(pt.code[pc + nup]) != OP_RETURN;
  }

  /** Each step leads to an instruction again, unless it is a LOADBOOL that skips badly. */
  lemma StepStays(pt: Proto, pc: nat, next: int)
    requires Accepted(pt) && At(pt, pc) && Goes(pt, pc, next)
    requires Op(pt.code[pc]) == OP_LOADBOOL && C(pt.code[pc]) >= 2 ==>
               pc + 2 < |pt.code| && !IsSetListZero(pt.code[pc + 1])
    ensures At(pt, next)
  {
    var i := pt.code[pc];
    assert InstrOk(pt, pc);
    if IsTest(Op(i)) {
      TestGoes(pt, pc, next);
    } else if Op(i) == OP_CLOSURE {
      ClosureGoes(pt, pc, next);
    } else if Op(i) == OP_LOADBOOL {
      NextAt(pt, pc);
    } else if OpFormat(Op(i)) != AsBx {
      NotLast(pt, pc);
    } else {
      NextAt(pt, pc);
    }
  }

  /** The operands of an accepted instruction exist. */
  lemma StepInBounds(pt: Proto, pc: nat)
    requires Accepted(pt) && At(pt, pc)
    ensures InBounds(pt, pc)
  {
    var i := pt.code[pc];
    assert InstrOk(pt, pc);
    if IsTest(Op(i)) || IsSetListZero(i) { NotLast(pt, pc); }
    if Op(i) == OP_CLOSURE { ClosureInBounds(pt, pc); } else { PlainInBounds(pt, pc); }
  }

  lemma {:induction false} ClosureWord(pt: Proto, pc: nat, nup: nat, q: nat)
    requires pc < |pt.code| && IsInstr(pt.code, pc) && Op(pt.code[pc]) == OP_CLOSURE && Upvalued(pt, pc, nup)
             && pc < q <= pc + nup
    ensures IsInstr(pt.code, q)
  {
    PlainWords(pt, pc, q - pc - 1);
  }

  lemma ClosureInBounds(pt: Proto, pc: nat)
    requires Accepted(pt) && At(pt, pc) && Op(pt.code[pc]) == OP_CLOSURE
    ensures InBounds(pt, pc)
  {
    var nup := pt.p[Bx(pt.code[pc])].nups;
    forall q | Reads(pt, pc, q)
      ensures 0 <= q < |pt.code| && InstrOk(pt, q)
    {
      ClosureWord(pt, pc, nup, q);
    }
  }

  lemma PlainInBounds(pt: Proto, pc: nat)
    requires PreCheck(pt) && pc < |pt.code| && InstrOk(pt, pc) && Op(pt.code[pc]) != OP_CLOSURE
    ensures InBounds(pt, pc)
  {
    hide IsInstr, Has;
  }

  predicate NoC(op: nat) {
    || op == OP_MOVE || op == OP_LOADNIL || op == OP_GETUPVAL || op == OP_SETUPVAL || op == OP_UNM || op == OP_NOT
    || op == OP_LEN || op == OP_RETURN || op == OP_CLOSE || op == OP_VARARG
  }

  /** Operands that the instruction does not use must be zero. */
  predicate UnusedZero(i: Word) {
    var op := Op(i);
    && (NoC(op) ==> C(i) == 0)
    && (op == OP_TFORLOOP || op == OP_CLOSE ==> B(i) == 0)
  }

  /** An instruction that takes the values up to the top of the stack. */
  predicate TakesOpen(i: Word) {
    var op := Op(i);
    (op == OP_CALL || op == OP_TAILCALL || op == OP_RETURN || op == OP_SETLIST) && B(i) == 0
  }

  /** Values up to the top of the stack are only left for an instruction that takes them. */
  predicate OpenTaken(pt: Proto, pc: nat)
    requires pc < |pt.code|
  {
    var i := pt.code[pc];
    ((Op(i) == OP_CALL || Op(i) == OP_TAILCALL) && C(i) == 0) || (Op(i) == OP_VARARG && B(i) == 0) ==>
      pc + 1 < |pt.code| && TakesOpen(pt.code[pc + 1])
  }

  /** Where control may go from the instruction, with the jump behind a test, is an instruction. */
  predicate LeadsOn(pt: Proto, pc: nat)
    requires pc < |pt.code|
  {
    var i := pt.code[pc];
    var op := Op(i);
    && (op == OP_JMP || op == OP_FORLOOP || op == OP_FORPREP ==> At(pt, pc + 1 + SBx(i)))
    && (Conditional(op) ==> pc + 2 < |pt.code| && Op(pt.code[pc + 1]) == OP_JMP)
    && (op == OP_LOADBOOL && C(i) == 1 ==> pc + 2 < |pt.code| && !IsSetListZero(pt.code[pc + 1]))
    && (op == OP_SETLIST && C(i) == 0 ==> pc + 2 < |pt.code|)
  }

  /** Registers that must exist though the instruction does not touch them. */
  predicate Reserved(pt: Proto, i: Word) {
    var op, a, b, c := Op(i), A(i), B(i), C(i);
    && a < pt.maxstacksize
    && (op == OP_TEST ==> b < pt.maxstacksize)
    && (op == OP_FORPREP ==> a + 3 < pt.maxstacksize)
    && (op == OP_TAILCALL && c > 1 ==> a + c - 2 < pt.maxstacksize)
    && (op == OP_CONCAT ==> b < pt.maxstacksize && c < pt.maxstacksize)
  }

  /**
    The checks of an instruction other than CLOSURE succeed just when all that it touches exists, and it leads on, and
    the few rules hold that are only about its form.
   */
  lemma CheckExact(pt: Proto, pc: nat)
    requires PreCheck(pt) && pc < |pt.code| && Op(pt.code[pc]) != OP_CLOSURE
    ensures var i := pt.code[pc];
            InstrOk(pt, pc) <==>
              && InBounds(pt, pc) && LeadsOn(pt, pc) && OpenTaken(pt, pc) && UnusedZero(i) && Reserved(pt, i)
              && (Op(i) == OP_CONCAT ==> B(i) < C(i)) && (Op(i) == OP_TFORLOOP ==> C(i) >= 1)
              && (Op(i) == OP_VARARG ==> Has(pt.isVararg, VARARG_ISVARARG) && !Has(pt.isVararg, VARARG_NEEDSARG))
  {
    hide IsInstr, Has;
    if InstrOk(pt, pc) { PlainInBounds(pt, pc); }
    if InBounds(pt, pc) && UnusedZero(pt.code[pc]) && Reserved(pt, pt.code[pc]) {
      OperandsFromBounds(pt, pc);
      RegistersFromBounds(pt, pc);
    }
  }

  /** Those of a CLOSURE: the words behind it are in the code, and each a MOVE or a GETUPVAL. */
  lemma ClosureExact(pt: Proto, pc: nat)
    requires pc < |pt.code| && Op(pt.code[pc]) == OP_CLOSURE
    ensures var j := Bx(pt.code[pc]);
            InstrOk(pt, pc) <==>
              && A(pt.code[pc]) < pt.maxstacksize && j < |pt.p| && pc + pt.p[j].nups < |pt.code|
              && forall q: nat :: Reads(pt, pc, q) ==> Op(pt.code[q]) == OP_GETUPVAL || Op(pt.code[q]) == OP_MOVE
  {
    hide Op, A, Bx, Reads;
    var j := Bx(pt.code[pc]);
    if j < |pt.p| {
      forall q: nat
        ensures Reads(pt, pc, q) <==> pc < q <= pc + pt.p[j].nups
      {
        ClosureReads(pt, pc, q);
      }
    }
  }

  lemma ClosureReads(pt: Proto, pc: nat, q: nat)
    requires pc < |pt.code| && Op(pt.code[pc]) == OP_CLOSURE && Bx(pt.code[pc]) < |pt.p|
    ensures Reads(pt, pc, q) <==> pc < q <= pc + pt.p[Bx(pt.code[pc])].nups
  {
  }

  // Registers that change

  /** The interpreter may give the register another value. */
  predicate Writes(i: Word, reg: nat) {
    var op, a, b, c := Op(i), A(i), B(i), C(i);
    if op == OP_LOADNIL then reg == b || a <= reg <= b
    else if op == OP_SELF then reg == a || reg == a + 1
    else if op == OP_CALL || op == OP_TAILCALL then reg >= a
    else if op == OP_TFORLOOP then reg >= a + 2
    else if op == OP_FORLOOP then reg == a || reg == a + 3
    else if op == OP_FORPREP then a <= reg <= a + 2
    else if op == OP_VARARG then reg >= a && (b != 0 ==> reg < a + b - 1)
    else if op == OP_CONCAT then reg == a || b <= reg <= c
    else if || op == OP_SETGLOBAL || op == OP_SETUPVAL || op == OP_SETTABLE || op == OP_JMP || op == OP_EQ
            || op == OP_LT || op == OP_LE || op == OP_TEST || op == OP_RETURN || op == OP_SETLIST
            || op == OP_CLOSE then false
    else reg == a
  }

  /**
    What the tracing takes for changes: just what the interpreter writes, but that of loops, concatenations and
    varargs it notes register A alone, and of TEST as well.
   */
  lemma ChangesExact(i: Word, reg: nat)
    requires Op(i) < NUM_OPCODES && (Op(i) == OP_LOADNIL ==> A(i) <= B(i))
    ensures Changes(i, reg) <==>
              if Op(i) == OP_FORLOOP || Op(i) == OP_FORPREP || Op(i) == OP_CONCAT || Op(i) == OP_VARARG
                 || Op(i) == OP_TEST
              then reg == A(i) else Writes(i, reg)
  {
    hide Op, A, B, C;
  }

  lemma UsedExists(pt: Proto, pc: nat, r: nat)
    requires pc < |pt.code| && InBounds(pt, pc)
    ensures UsesRegister(pt, pc, r) ==> r < pt.maxstacksize
    ensures UsesConstant(pt, pc, r) ==> r < |pt.k|
    ensures UsesUpvalue(pt, pc, r) ==> r < pt.nups
  {
    hide UsesRegister, UsesConstant, UsesUpvalue;
  }

  /** The last registers of the ranges that instructions use. */
  lemma RegistersFromBounds(pt: Proto, pc: nat)
    requires pc < |pt.code| && InBounds(pt, pc)
    ensures var i := pt.code[pc];
            var op, a, b, c := Op(i), A(i), B(i), C(i);
            && (op == OP_GETUPVAL || op == OP_SETUPVAL ==> b < pt.nups)
            && (op == OP_SELF ==> a + 1 < pt.maxstacksize)
            && (op == OP_TFORLOOP ==> a + 2 + c < pt.maxstacksize)
            && (op == OP_FORLOOP ==> a + 3 < pt.maxstacksize)
            && ((op == OP_CALL || op == OP_TAILCALL) && b != 0 ==> a + b - 1 < pt.maxstacksize)
            && (op == OP_CALL && c > 1 ==> a + c - 2 < pt.maxstacksize)
            && ((op == OP_RETURN || op == OP_VARARG) && b > 1 ==> a + b - 2 < pt.maxstacksize)
            && (op == OP_SETLIST ==> a + b < pt.maxstacksize)
  {
    hide InBounds;
    var i := pt.code[pc];
    var a, b, c := A(i), B(i), C(i);
    UsedExists(pt, pc, b);
    UsedExists(pt, pc, a + 1);
    UsedExists(pt, pc, a + 2 + c);
    UsedExists(pt, pc, a + 3);
    UsedExists(pt, pc, a + b);
    if b > 0 { UsedExists(pt, pc, a + b - 1); }
    if b > 1 { UsedExists(pt, pc, a + b - 2); }
    if c > 1 { UsedExists(pt, pc, a + c - 2); }
  }

  lemma OperandsFromBounds(pt: Proto, pc: nat)
    requires pc < |pt.code| && Op(pt.code[pc]) != OP_CLOSURE
    requires InBounds(pt, pc) && UnusedZero(pt.code[pc]) && Reserved(pt, pt.code[pc])
    ensures OperandsOk(pt, pt.code[pc])
  {
    assert Op(pt.code[pc]) < NUM_OPCODES;
    hide InBounds;
    var b, c := B(pt.code[pc]), C(pt.code[pc]);
    UsedExists(pt, pc, b);
    UsedExists(pt, pc, c);
    UsedExists(pt, pc, Bx(pt.code[pc]));
    if IsK(b) { UsedExists(pt, pc, IndexK(b)); }
    if IsK(c) { UsedExists(pt, pc, IndexK(c)); }
  }

  /** Steps stay on instructions exactly when no LOADBOOL skips onto a count or out of the code. */
  lemma StepsStayIff(pt: Proto)
    requires Accepted(pt)
    ensures SkipsOk(pt) <==> forall pc, next :: At(pt, pc) && Goes(pt, pc, next) ==> At(pt, next)
  {
    hide Op, A, B, C, Bx, InstrOk;
    if SkipsOk(pt) {
      forall pc, next | At(pt, pc) && Goes(pt, pc, next)
        ensures At(pt, next)
      {
        StepStays(pt, pc, next);
      }
    }
    if forall pc, next :: At(pt, pc) && Goes(pt, pc, next) ==> At(pt, next) {
      forall pc | At(pt, pc) && Op(pt.code[pc]) == OP_LOADBOOL && C(pt.code[pc]) >= 2
        ensures pc + 2 < |pt.code| && !IsSetListZero(pt.code[pc + 1])
      {
        assert Goes(pt, pc, pc + 2);
        NextAt(pt, pc);
      }
    }
  }

  // Whole runs

  /** The places of an activation of the function, from its first instruction on. */
  ghost predicate Run(pt: Proto, trace: seq<int>) {
    && |trace| > 0 && trace[0] == 0
    && forall n :: 0 <= n < |trace| - 1 ==> 0 <= trace[n] < |pt.code| && Goes(pt, trace[n], trace[n + 1])
  }

  /** In every run of an accepted function control stays on its instructions and touches only what exists. */
  lemma {:induction false} RunIsSound(pt: Proto, trace: seq<int>, n: nat)
    requires Accepted(pt) && SkipsOk(pt) && Run(pt, trace) && n < |trace|
    ensures At(pt, trace[n]) && InBounds(pt, trace[n])
  {
    if n > 0 {
      RunIsSound(pt, trace, n - 1);
      StepStays(pt, trace[n - 1], trace[n]);
    }
    StepInBounds(pt, trace[n]);
  }

  /** Only a RETURN (or a tail call) ends a run: elsewhere there is a next instruction. */
  lemma RunGoesOn(pt: Proto, trace: seq<int>)
    requires Accepted(pt) && SkipsOk(pt) && Run(pt, trace)
    ensures At(pt, trace[|trace| - 1])
    ensures Op(pt.code[trace[|trace| - 1]]) == OP_RETURN || exists next :: Run(pt, trace + [next])
  {
    var pc := trace[|trace| - 1];
    RunIsSound(pt, trace, |trace| - 1);
    if Op(pt.code[pc]) != OP_RETURN {
      var next := NextOf(pt, pc);
      var t := trace + [next];
      assert forall n :: 0 <= n < |t| - 1 ==> t[n] == trace[n];
      assert Run(pt, t);
    }
  }

  /** A successor of an instruction that is no RETURN. */
  function NextOf(pt: Proto, pc: nat): (next: int)
    requires pc < |pt.code| && Op(pt.code[pc]) != OP_RETURN
    ensures Goes(pt, pc, next)
  {
    var i := pt.code[pc];
    if Op(i) == OP_LOADBOOL then (if C(i) != 0 then pc + 2 else pc + 1)
    else if Op(i) == OP_JMP || Op(i) == OP_FORPREP then pc + 1 + SBx(i)
    else if Conditional(Op(i)) then pc + 2
    else if Op(i) == OP_SETLIST then (if C(i) == 0 then pc + 2 else pc + 1)
    else if Op(i) == OP_CLOSURE then pc + 1 + (if Bx(i) < |pt.p| then pt.p[Bx(i)].nups else 0)
    else pc + 1
  }

  // What the verifier lets through

  function Bare(code: seq<Word>): Proto {
    Proto(Common.None, 0, 0, 0, 0, 0, 1, code, [], [], [], [], [])
  }

  const SKIP: Word := 0x8002         // LOADBOOL 0 0 2
  const LIST: Word := 0x22           // SETLIST 0 0 0
  const COUNT: Word := 0xFFFF_FFFF
  const LEAVE: Word := 0x80_001E     // RETURN 0 1

  lemma Words()
    ensures Op(SKIP) == OP_LOADBOOL && A(SKIP) == 0 && B(SKIP) == 0 && C(SKIP) == 2
    ensures Op(LIST) == OP_SETLIST && A(LIST) == 0 && B(LIST) == 0 && C(LIST) == 0
    ensures Op(LEAVE) == OP_RETURN && A(LEAVE) == 0 && B(LEAVE) == 1 && C(LEAVE) == 0
  {
  }

  /** LOADBOOL with C = 2 before a SETLIST with a count: accepted, and the skip lands on the count. */
  lemma SkipOntoCount()
    ensures Accepted(Bare([SKIP, LIST, COUNT, LEAVE])) && Goes(Bare([SKIP, LIST, COUNT, LEAVE]), 0, 2)
    ensures !At(Bare([SKIP, LIST, COUNT, LEAVE]), 2)
  {
    hide Op, A, B, C;
    Words();
    var pt := Bare([SKIP, LIST, COUNT, LEAVE]);
    var code := pt.code;
    assert code[0] == SKIP && code[1] == LIST && code[3] == LEAVE && |code| == 4;
    assert IsInstr(code, 0);
    assert IsInstr(code, 1);
    assert !IsInstr(code, 2);
    assert InstrOk(pt, 0);
    assert InstrOk(pt, 1);
    assert InstrOk(pt, 3);
  }

  /** The same LOADBOOL as the last instruction but one: accepted, and the skip leaves the code. */
  lemma SkipOutOfCode()
    ensures Accepted(Bare([SKIP, LEAVE])) && Goes(Bare([SKIP, LEAVE]), 0, 2) && !At(Bare([SKIP, LEAVE]), 2)
  {
    hide Op, A, B, C;
    Words();
    var pt := Bare([SKIP, LEAVE]);
    assert pt.code[0] == SKIP && pt.code[1] == LEAVE && |pt.code| == 2;
    assert InstrOk(pt, 0);
    assert InstrOk(pt, 1);
  }
}
