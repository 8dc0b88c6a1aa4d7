/** Function prototypes and the instruction format of `lopcodes.h`. */
module Bytecode {
  import opened Common

  type Byte = n: nat | n < 0x100
  type Word = n: nat | n < 0x1_0000_0000

  /** A constant; the eight bytes of a number are not interpreted. */
  datatype Constant =
    | NilConstant
    | BoolConstant(b: bool)
    | NumberConstant(bytes: seq<Byte>)
    | StringConstant(text: seq<Byte>)

  datatype LocVar = LocVar(name: Option<seq<Byte>>, startpc: nat, endpc: nat)

  /** `Proto`, with the sizes of its arrays given by the sequences. */
  datatype Proto = Proto(
    source: Option<seq<Byte>>, linedefined: nat, lastlinedefined: nat,
    nups: Byte, numparams: Byte, isVararg: Byte, maxstacksize: Byte,
    code: seq<Word>, k: seq<Constant>, p: seq<Proto>,
    lineinfo: seq<Word>, locvars: seq<LocVar>, upvalues: seq<Option<seq<Byte>>>)

  // Fields of an instruction: op 6 bits, A 8, C 9, B 9; Bx is B and C together

  function Op(i: Word): (r: nat)
    ensures r < 64
  {
    i % 64
  }

  function A(i: Word): (r: nat)
    ensures r < 256
  {
    i / 64 % 256
  }

  function C(i: Word): (r: nat)
    ensures r < 512
  {
    i / 0x4000 % 512
  }

  function B(i: Word): (r: nat)
    ensures r < 512
  {
    i / 0x80_0000
  }

  function Bx(i: Word): (r: nat)
    ensures r < 0x4_0000
  {
    i / 0x4000
  }

  /** The fields cover the word, each bit in one of them; Bx is B above C. */
  lemma FieldsExact(i: Word)
    ensures i == Op(i) + 0x40 * A(i) + 0x4000 * C(i) + 0x80_0000 * B(i) && Bx(i) == C(i) + 0x200 * B(i)
  {
    var q, r := i / 0x40, i / 0x40 / 0x100;
    assert i == Op(i) + 0x40 * q && q == A(i) + 0x100 * r;
    assert r == i / 0x4000 && r / 0x200 == i / 0x80_0000;
  }

  const MAXARG_SBX: nat := 131071

  function SBx(i: Word): int { Bx(i) - MAXARG_SBX }

  const BITRK: nat := 256

  /** `ISK` and `INDEXK`: operands from 256 on are constants. */
  predicate IsK(r: nat) { r >= BITRK }

  function IndexK(r: nat): nat
    requires IsK(r)
  {
    r - BITRK
  }

  // Opcodes, in the order of `OpCode`

  const OP_MOVE: nat := 0
  const OP_LOADK: nat := 1
  const OP_LOADBOOL: nat := 2
  const OP_LOADNIL: nat := 3
  const OP_GETUPVAL: nat := 4
  const OP_GETGLOBAL: nat := 5
  const OP_GETTABLE: nat := 6
  const OP_SETGLOBAL: nat := 7
  const OP_SETUPVAL: nat := 8
  const OP_SETTABLE: nat := 9
  const OP_NEWTABLE: nat := 10
  const OP_SELF: nat := 11
  const OP_ADD: nat := 12
  const OP_SUB: nat := 13
  const OP_MUL: nat := 14
  const OP_DIV: nat := 15
  const OP_MOD: nat := 16
  const OP_POW: nat := 17
  const OP_UNM: nat := 18
  const OP_NOT: nat := 19
  const OP_LEN: nat := 20
  const OP_CONCAT: nat := 21
  const OP_JMP: nat := 22
  const OP_EQ: nat := 23
  const OP_LT: nat := 24
  const OP_LE: nat := 25
  const OP_TEST: nat := 26
  const OP_TESTSET: nat := 27
  const OP_CALL: nat := 28
  const OP_TAILCALL: nat := 29
  const OP_RETURN: nat := 30
  const OP_FORLOOP: nat := 31
  const OP_FORPREP: nat := 32
  const OP_TFORLOOP: nat := 33
  const OP_SETLIST: nat := 34
  const OP_CLOSE: nat := 35
  const OP_CLOSURE: nat := 36
  const OP_VARARG: nat := 37
  const NUM_OPCODES: nat := 38

  datatype Format = ABC | ABx | AsBx
  datatype ArgMode = ArgN | ArgU | ArgR | ArgK

  // `luaP_opmodes`, column by column

  function OpFormat(op: nat): Format {
    if op == OP_LOADK || op == OP_GETGLOBAL || op == OP_SETGLOBAL || op == OP_CLOSURE then ABx
    else if op == OP_JMP || op == OP_FORLOOP || op == OP_FORPREP then AsBx
    else ABC
  }

  function BMode(op: nat): ArgMode {
    if op == OP_TFORLOOP || op == OP_CLOSE then ArgN
    else if || op == OP_LOADBOOL || op == OP_GETUPVAL || op == OP_SETUPVAL || op == OP_NEWTABLE || op == OP_CALL
        || op == OP_TAILCALL
            || op == OP_RETURN || op == OP_SETLIST || op == OP_CLOSURE || op == OP_VARARG then ArgU
    else if || op == OP_LOADK || op == OP_GETGLOBAL || op == OP_SETGLOBAL || op == OP_SETTABLE
            || OP_ADD <= op <= OP_POW || OP_EQ <= op <= OP_LE then ArgK
    else ArgR
  }

  function CMode(op: nat): ArgMode {
    if op == OP_CONCAT then ArgR
    else if op == OP_GETTABLE || op == OP_SETTABLE || op == OP_SELF || OP_ADD <= op <= OP_POW
        || OP_EQ <= op <= OP_LE then ArgK
    else if || op == OP_LOADBOOL || op == OP_NEWTABLE || op == OP_TEST || op == OP_TESTSET || op == OP_CALL
        || op == OP_TAILCALL
            || op == OP_TFORLOOP || op == OP_SETLIST then ArgU
    else ArgN
  }

  /** The instruction sets register A. */
  predicate SetsA(op: nat) {
    !(|| op == OP_SETGLOBAL || op == OP_SETUPVAL || op == OP_SETTABLE || op == OP_JMP || OP_EQ <= op <= OP_LE
      || op == OP_RETURN
      || op == OP_TFORLOOP || op == OP_SETLIST || op == OP_CLOSE)
  }

  /** The instruction is a test: the next one must be a jump. */
  predicate IsTest(op: nat) {
    OP_EQ <= op <= OP_TESTSET || op == OP_TFORLOOP
  }
}
