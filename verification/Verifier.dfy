/** The bytecode verifier of `ldebug.c`: `luaG_checkcode` and what it accepts. */
module Verifier {
  import opened Bytecode

  const MAXSTACK: nat := 250
  const NO_REG: nat := 255

  const VARARG_HASARG: nat := 1
  const VARARG_ISVARARG: nat := 2
  const VARARG_NEEDSARG: nat := 4

  predicate Has(flags: Byte, bit: nat)
    requires bit > 0
  {
    flags / bit % 2 == 1
  }

  // What is accepted

  /** The word reads as a SETLIST whose count is in the next word. */
  predicate IsSetListZero(i: Word) {
    Op(i) == OP_SETLIST && C(i) == 0
  }

  /** The word at `q` is an instruction: it is not the count of a SETLIST before it. */
  predicate IsInstr(code: seq<Word>, q: nat)
    requires q <= |code|
  {
    q == 0 || !(IsInstr(code, q - 1) && IsSetListZero(code[q - 1]))
  }

  predicate PreCheck(pt: Proto) {
    && pt.maxstacksize <= MAXSTACK
    && pt.numparams + (if Has(pt.isVararg, VARARG_HASARG) then 1 else 0) <= pt.maxstacksize
    && (Has(pt.isVararg, VARARG_NEEDSARG) ==> Has(pt.isVararg, VARARG_HASARG))
    && |pt.upvalues| <= pt.nups
    && (|pt.lineinfo| == |pt.code| || |pt.lineinfo| == 0)
    && |pt.code| > 0 && Op(pt.code[|pt.code| - 1]) == OP_RETURN
  }

  predicate ArgOk(pt: Proto, r: nat, mode: ArgMode) {
    match mode
    case ArgN => r == 0
    case ArgU => true
    case ArgR => r < pt.maxstacksize
    case ArgK => if IsK(r) then IndexK(r) < |pt.k| else r < pt.maxstacksize
  }

  /** The operands are registers and constants of the function. */
  predicate OperandsOk(pt: Proto, i: Word) {
    && Op(i) < NUM_OPCODES
    && A(i) < pt.maxstacksize
    && match OpFormat(Op(i))
       case ABC => ArgOk(pt, B(i), BMode(Op(i))) && ArgOk(pt, C(i), CMode(Op(i)))
       case ABx => BMode(Op(i)) == ArgK ==> Bx(i) < |pt.k|
       case AsBx => true
  }

  /** `luaG_checkopenop`: an instruction that takes values up to the top of the stack. */
  predicate IsOpen(i: Word) {
    (Op(i) == OP_CALL || Op(i) == OP_TAILCALL || Op(i) == OP_RETURN || Op(i) == OP_SETLIST) && B(i) == 0
  }

  /** A jump leads to an instruction of the function. */
  predicate JumpOk(pt: Proto, dest: int) {
    0 <= dest < |pt.code| && IsInstr(pt.code, dest)
  }

  predicate Upvalued(pt: Proto, pc: nat, nup: nat) {
    pc + nup < |pt.code| && forall q ::
          pc < q <= pc + nup ==> Op(pt.code[q]) == OP_GETUPVAL || Op(pt.code[q]) == OP_MOVE
  }

  /** The instruction at `pc` keeps control, operands and nested prototypes within the function. */
  predicate InstrOk(pt: Proto, pc: nat)
    requires pc < |pt.code|
  {
    var i := pt.code[pc];
    var op, a, b, c := Op(i), A(i), B(i), C(i);
    && OperandsOk(pt, i)
    && (OpFormat(op) == AsBx ==> JumpOk(pt, pc + 1 + SBx(i)))
    && (IsTest(op) ==> pc + 2 < |pt.code| && Op(pt.code[pc + 1]) == OP_JMP)
    && (op == OP_LOADBOOL && c == 1 ==> pc + 2 < |pt.code| && !IsSetListZero(pt.code[pc + 1]))
    && (op == OP_GETUPVAL || op == OP_SETUPVAL ==> b < pt.nups)
    && (op == OP_GETGLOBAL || op == OP_SETGLOBAL ==> pt.k[Bx(i)].StringConstant?)
    && (op == OP_SELF ==> a + 1 < pt.maxstacksize)
    && (op == OP_CONCAT ==> b < c)
    && (op == OP_TFORLOOP ==> c >= 1 && a + 2 + c < pt.maxstacksize)
    && (op == OP_FORLOOP || op == OP_FORPREP ==> a + 3 < pt.maxstacksize)
    && (op == OP_CALL || op == OP_TAILCALL ==>
          && (b != 0 ==> a + b - 1 < pt.maxstacksize)
          && (c == 0 ==> pc + 1 < |pt.code| && IsOpen(pt.code[pc + 1]))
          && (c > 1 ==> a + c - 2 < pt.maxstacksize))
    && (op == OP_RETURN && b > 1 ==> a + b - 2 < pt.maxstacksize)
    && (op == OP_SETLIST ==> (b > 0 ==> a + b < pt.maxstacksize) && (c == 0 ==> pc + 1 < |pt.code| - 1))
    && (op == OP_CLOSURE ==> Bx(i) < |pt.p| && Upvalued(pt, pc, pt.p[Bx(i)].nups))
    && (op == OP_VARARG ==>
          && Has(pt.isVararg, VARARG_ISVARARG) && !Has(pt.isVararg, VARARG_NEEDSARG)
          && (b == 0 ==> pc + 1 < |pt.code| && IsOpen(pt.code[pc + 1]))
          && a + b - 2 < pt.maxstacksize)
  }

  /** Every instruction of the function is in order; the count words of SETLIST may hold anything. */
  predicate Accepted(pt: Proto) {
    PreCheck(pt) && forall pc :: 0 <= pc < |pt.code| && IsInstr(pt.code, pc) ==> InstrOk(pt, pc)
  }

  // The parity of SETLIST look-alikes before a jump's destination

  /** From `dest` back to `dest - j` every word looks like a SETLIST with a count word. */
  predicate LookAlikes(code: seq<Word>, dest: nat, j: nat) {
    j <= dest <= |code| && forall q :: dest - j <= q < dest ==> IsSetListZero(code[q])
  }

  /** From an instruction on, look-alikes are alternately instructions and counts. */
  lemma {:induction false} Alternate(code: seq<Word>, dest: nat, j: nat)
    requires LookAlikes(code, dest, j) && IsInstr(code, dest - j)
    ensures IsInstr(code, dest) <==> j % 2 == 0
  {
    if j > 0 {
      assert IsSetListZero(code[dest - 1]);
      Alternate(code, dest - 1, j - 1);
    }
  }

  /** Counting the look-alikes before `dest` tells whether `dest` is an instruction, whatever the counts hold. */
  lemma ParityDecides(code: seq<Word>, dest: nat, j: nat)
    requires LookAlikes(code, dest, j) && (j == dest || !IsSetListZero(code[dest - j - 1]))
    ensures IsInstr(code, dest) <==> j % 2 == 0
  {
    Alternate(code, dest, j);
  }

  /** The check of a jump's destination in `symbexec`. */
  method CheckJump(pt: Proto, dest: int) returns (ok: bool)
    ensures ok == JumpOk(pt, dest)
  {
    if !(0 <= dest < |pt.code|) {
      return false;
    }
    var j := 0;
    while j < dest && IsSetListZero(pt.code[dest - 1 - j])
      invariant 0 <= j <= dest && LookAlikes(pt.code, dest, j)
    {
      j := j + 1;
    }
    ParityDecides(pt.code, dest, j);
    return j % 2 == 0;
  }

  // `symbexec`

  /** The instruction may change the register. */
  predicate Changes(i: Word, reg: nat) {
    || (SetsA(Op(i)) && A(i) == reg)
    || (Op(i) == OP_LOADNIL && A(i) <= reg <= B(i))
    || (Op(i) == OP_SELF && reg == A(i) + 1)
    || (Op(i) == OP_TFORLOOP && reg >= A(i) + 2)
    || ((Op(i) == OP_CALL || Op(i) == OP_TAILCALL) && reg >= A(i))
  }

  /** The checks of `symbexec` on one instruction. */
  method CheckInstr(pt: Proto, pc: nat) returns (ok: bool)
    requires pc < |pt.code| && PreCheck(pt)
    ensures ok == InstrOk(pt, pc)
  {
    hide IsInstr, Has, ArgOk, IsSetListZero, Op, A, B, C, Bx, SBx;
    var i := pt.code[pc];
    var op, a, b, c := Op(i), A(i), B(i), C(i);
    if !OperandsOk(pt, i) {
      return false;
    }
    if OpFormat(op) == AsBx {
      var inside := CheckJump(pt, pc + 1 + SBx(i));
      if !inside {
        return false;
      }
    }
    if IsTest(op) && !(pc + 2 < |pt.code| && Op(pt.code[pc + 1]) == OP_JMP) {
      return false;
    }
    if op == OP_LOADBOOL {
      return c != 1 || (pc + 2 < |pt.code| && !IsSetListZero(pt.code[pc + 1]));
    } else if op == OP_GETUPVAL || op == OP_SETUPVAL {
      return b < pt.nups;
    } else if op == OP_GETGLOBAL || op == OP_SETGLOBAL {
      return pt.k[Bx(i)].StringConstant?;
    } else if op == OP_SELF {
      return a + 1 < pt.maxstacksize;
    } else if op == OP_CONCAT {
      return b < c;
    } else if op == OP_TFORLOOP {
      return c >= 1 && a + 2 + c < pt.maxstacksize;
    } else if op == OP_FORLOOP || op == OP_FORPREP {
      return a + 3 < pt.maxstacksize;
    } else if op == OP_CALL || op == OP_TAILCALL {
      return
        && (b == 0 || a + b - 1 < pt.maxstacksize)
        && (if c == 0 then pc + 1 < |pt.code| && IsOpen(pt.code[pc + 1]) else c == 1 || a + c - 2 < pt.maxstacksize);
    } else if op == OP_RETURN {
      return b <= 1 || a + b - 2 < pt.maxstacksize;
    } else if op == OP_SETLIST {
      return (b == 0 || a + b < pt.maxstacksize) && (c != 0 || pc + 1 < |pt.code| - 1);
    } else if op == OP_CLOSURE {
      if Bx(i) >= |pt.p| {
        return false;
      }
      ok := CheckUpvalues(pt, pc, pt.p[Bx(i)].nups);
    } else if op == OP_VARARG {
      return
        && Has(pt.isVararg, VARARG_ISVARARG) && !Has(pt.isVararg, VARARG_NEEDSARG)
        && (b != 0 || (pc + 1 < |pt.code| && IsOpen(pt.code[pc + 1])))
        && a + b - 2 < pt.maxstacksize;
    } else {
      return true;
    }
  }

  /** The words after a CLOSURE name the variables it captures. */
  method CheckUpvalues(pt: Proto, pc: nat, nup: nat) returns (ok: bool)
    ensures ok == Upvalued(pt, pc, nup)
  {
    if pc + nup >= |pt.code| {
      return false;
    }
    for j := 1 to nup + 1
      invariant forall q :: pc < q < pc + j ==> Op(pt.code[q]) == OP_GETUPVAL || Op(pt.code[q]) == OP_MOVE
    {
      var op := Op(pt.code[pc + j]);
      if !(op == OP_GETUPVAL || op == OP_MOVE) {
        return false;
      }
    }
    return true;
  }

  /** Where `symbexec` goes on after an instruction: with a register to trace, jumps forward are followed. */
  function NextOn(pt: Proto, pc: nat, lastpc: nat, reg: nat): (next: nat)
    requires pc < |pt.code|
    ensures next > pc
  {
    var i := pt.code[pc];
    if && (Op(i) == OP_JMP || Op(i) == OP_FORLOOP || Op(i) == OP_FORPREP)
       && reg != NO_REG && pc < pc + 1 + SBx(i) <= lastpc
    then pc + 1 + SBx(i)
    else if Op(i) == OP_SETLIST && C(i) == 0 then pc + 2
    else if Op(i) == OP_CLOSURE && reg != NO_REG && Bx(i) < |pt.p| then pc + 1 + pt.p[Bx(i)].nups
    else pc + 1
  }

  /** The instructions that it comes to, and the place behind `lastpc` where it stops. */
  ghost predicate Way(pt: Proto, lastpc: nat, reg: nat, w: seq<nat>) {
    && |w| > 0 && w[0] == 0 && w[|w| - 1] <= |pt.code|
    && forall n :: 0 <= n < |w| - 1 ==> w[n] < lastpc && w[n] < |pt.code| && w[n + 1] == NextOn(pt, w[n], lastpc, reg)
  }

  /** No instruction of the way from the `n`-th on changes the register. */
  ghost predicate Unchanged(pt: Proto, reg: nat, w: seq<nat>, n: nat) {
    forall k :: n <= k < |w| - 1 ==> w[k] < |pt.code| && !Changes(pt.code[w[k]], reg)
  }

  /** The last instruction of the way that changes the register; the final return stands for none. */
  ghost predicate LastChange(pt: Proto, reg: nat, w: seq<nat>, last: nat) {
    && last < |pt.code|
    && (|| (last == |pt.code| - 1 && Unchanged(pt, reg, w, 0))
        || exists n :: 0 <= n < |w| - 1 && w[n] == last && Changes(pt.code[last], reg) && Unchanged(pt, reg, w, n + 1))
  }

  lemma LastStays(pt: Proto, reg: nat, w: seq<nat>, last: nat, next: nat)
    requires |w| > 0 && LastChange(pt, reg, w, last) && w[|w| - 1] < |pt.code|
    ensures LastChange(pt, reg, w + [next],
                       if Changes(pt.code[w[|w| - 1]], reg) then w[|w| - 1] else last)
  {
    var v, pc := w + [next], w[|w| - 1];
    assert forall k :: 0 <= k < |w| ==> v[k] == w[k];
    if Changes(pt.code[pc], reg) {
      assert v[|w| - 1] == pc && Unchanged(pt, reg, v, |w|);
    } else if !Unchanged(pt, reg, w, 0) || last != |pt.code| - 1 {
      var n :| 0 <= n < |w| - 1 && w[n] == last && Changes(pt.code[last], reg) && Unchanged(pt, reg, w, n + 1);
      assert v[n] == last && Unchanged(pt, reg, v, n + 1);
    } else {
      assert Unchanged(pt, reg, v, 0);
    }
  }

  lemma WayOn(pt: Proto, lastpc: nat, reg: nat, w: seq<nat>, next: nat)
    requires Way(pt, lastpc, reg, w) && w[|w| - 1] < lastpc && w[|w| - 1] < |pt.code| && next <= |pt.code|
    requires next == NextOn(pt, w[|w| - 1], lastpc, reg)
    ensures Way(pt, lastpc, reg, w + [next])
  {
  }

  /**
    `symbexec`: check the instructions before `lastpc`, or, given a register, follow the code to the
    instruction that last changed it. Zero stands for a failed check.
   */
  method SymbExec(pt: Proto, lastpc: nat, reg: nat) returns (r: Word)
    requires lastpc <= |pt.code|
    ensures reg == NO_REG && lastpc == |pt.code| ==> (r != 0 <==> Accepted(pt))
    ensures Accepted(pt) ==>
              exists w, last: nat ::
                && Way(pt, lastpc, reg, w) && w[|w| - 1] >= lastpc && LastChange(pt, reg, w, last) && r == pt.code[last]
  {
    hide Changes, IsInstr, InstrOk, PreCheck, LastChange, Way, Accepted, NextOn;
    if !PreCheck(pt) {
      NotHeaded(pt);
      return 0;
    }
    WayStart(pt, lastpc, reg);
    var last: nat := |pt.code| - 1;
    var pc := 0;
    ghost var w: seq<nat> := [0];
    while pc < lastpc
      invariant pc <= |pt.code| && IsInstr(pt.code, pc) && last < |pt.code|
      invariant |w| > 0 && w[|w| - 1] == pc && Way(pt, lastpc, reg, w) && LastChange(pt, reg, w, last)
      invariant reg == NO_REG ==> Op(pt.code[last]) != 0
                                  && forall q :: 0 <= q < pc && IsInstr(pt.code, q) ==> InstrOk(pt, q)
    {
      var i := pt.code[pc];
      var ok := CheckInstr(pt, pc);
      if !ok {
        NotAccepted(pt, pc);
        return 0;
      }
      var next := NextVisited(pt, pc, lastpc, reg);
      LastStays(pt, reg, w, last, next);
      WayOn(pt, lastpc, reg, w, next);
      if Changes(i, reg) {
        NoRegChanges(pt, pc);
        last := pc;
      }
      w := w + [next];
      pc := next;
    }
    AllOk(pt);
    return pt.code[last];
  }

  lemma WayStart(pt: Proto, lastpc: nat, reg: nat)
    requires PreCheck(pt)
    ensures |pt.code| > 0 && Op(pt.code[|pt.code| - 1]) != 0 && IsInstr(pt.code, 0)
    ensures Way(pt, lastpc, reg, [0]) && LastChange(pt, reg, [0], |pt.code| - 1)
  {
  }

  lemma NotHeaded(pt: Proto)
    requires !PreCheck(pt)
    ensures !Accepted(pt)
  {
    hide InstrOk, IsInstr;
  }

  lemma NotAccepted(pt: Proto, pc: nat)
    requires pc < |pt.code| && IsInstr(pt.code, pc) && !InstrOk(pt, pc)
    ensures !Accepted(pt)
  {
    hide InstrOk, IsInstr;
  }

  lemma AllOk(pt: Proto)
    requires PreCheck(pt)
    ensures (forall q :: 0 <= q < |pt.code| && IsInstr(pt.code, q) ==> InstrOk(pt, q)) ==> Accepted(pt)
  {
  }

  /** Where `symbexec` goes on after an instruction. */
  method NextVisited(pt: Proto, pc: nat, lastpc: nat, reg: nat) returns (next: nat)
    requires pc < lastpc <= |pt.code| && PreCheck(pt) && InstrOk(pt, pc) && IsInstr(pt.code, pc)
    ensures next == NextOn(pt, pc, lastpc, reg) && pc < next <= |pt.code| && IsInstr(pt.code, next)
    ensures reg == NO_REG ==> next == pc + 1 || (next == pc + 2 && !IsInstr(pt.code, pc + 1))
  {
    var i := pt.code[pc];
    if OpFormat(Op(i)) == AsBx && reg != NO_REG && pc < pc + 1 + SBx(i) <= lastpc {
      return pc + 1 + SBx(i);
    } else if IsSetListZero(i) {
      return pc + 2;
    } else if Op(i) == OP_CLOSURE && reg != NO_REG {
      PlainWords(pt, pc, pt.p[Bx(i)].nups);
      return pc + 1 + pt.p[Bx(i)].nups;
    } else {
      return pc + 1;
    }
  }

  /** The words that follow a CLOSURE are instructions, and so is the word after them. */
  lemma {:induction false} PlainWords(pt: Proto, pc: nat, nup: nat)
    requires pc < |pt.code| && IsInstr(pt.code, pc) && Op(pt.code[pc]) == OP_CLOSURE && Upvalued(pt, pc, nup)
    ensures IsInstr(pt.code, pc + nup + 1)
  {
    if nup > 0 { PlainWords(pt, pc, nup - 1); }
  }

  /** Without a register to trace, only calls are recorded. */
  lemma NoRegChanges(pt: Proto, pc: nat)
    requires pc < |pt.code| && PreCheck(pt) && InstrOk(pt, pc)
    ensures Changes(pt.code[pc], NO_REG) ==> Op(pt.code[pc]) != 0
  {
  }

  /** `luaG_checkcode` accepts a function exactly when all its instructions are in order. */
  method CheckCode(pt: Proto) returns (ok: bool)
    ensures ok == Accepted(pt)
    ensures ok <==>
              && pt.maxstacksize <= 250 && pt.numparams + pt.isVararg % 2 <= pt.maxstacksize
              && (pt.isVararg / 4 % 2 == 1 ==> pt.isVararg % 2 == 1) && |pt.upvalues| <= pt.nups
              && (pt.lineinfo == [] || |pt.lineinfo| == |pt.code|)
              && |pt.code| > 0 && Op(pt.code[|pt.code| - 1]) == OP_RETURN
              && forall pc :: 0 <= pc < |pt.code| && IsInstr(pt.code, pc) ==> InstrOk(pt, pc)
  {
    var r := SymbExec(pt, |pt.code|, NO_REG);
    return r != 0;
  }
}
