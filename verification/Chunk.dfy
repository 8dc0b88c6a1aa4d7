/** Precompiled chunks: what `luaU_dump` writes (`ldump.c`), `luaU_undump` reads back (`lundump.c`). */
module Chunk {
  import opened Common
  import opened Bytecode
  import opened Verifier

  type Bytes = seq<Byte>

  /** What was read, and the bytes behind it; or an error. */
  datatype Read<T> = Got(v: T, rest: Bytes) | Failed(e: ChunkError)

  datatype ChunkError = UnexpectedEnd | BadInteger | BadConstant | BadCode | TooDeep | BadHeader

  // Integers

  const INT_SIZE: nat := 4
  const SIZE_T_SIZE: nat := 8
  const NUMBER_SIZE: nat := 8
  const MAX_INT: nat := 0x7fff_ffff

  function Pow256(k: nat): nat { if k == 0 then 1 else 256 * Pow256(k - 1) }

  /** The bytes of an integer, least significant first. */
  function Le(n: nat, k: nat): (r: Bytes)
    ensures |r| == k
  {
    if k == 0 then [] else [n % 256] + Le(n / 256, k - 1)
  }

  function UnLe(b: Bytes): nat { if b == [] then 0 else b[0] + 256 * UnLe(b[1..]) }

  lemma {:induction false} LeBack(n: nat, k: nat)
    requires n < Pow256(k)
    ensures UnLe(Le(n, k)) == n
  {
    if k > 0 {
      LeBack(n / 256, k - 1);
      assert Le(n, k)[1..] == Le(n / 256, k - 1);
    }
  }

  lemma FourBytes()
    ensures Pow256(4) == 0x1_0000_0000
  {
    assert Pow256(1) == 256 && Pow256(2) == 65536 && Pow256(3) == 16777216;
  }

  function LoadBlock(b: Bytes, n: nat): (r: Read<Bytes>)
    ensures r.Got? ==> |r.v| == n && b == r.v + r.rest
  {
    if |b| < n then Failed(UnexpectedEnd) else Got(b[..n], b[n..])
  }

  lemma BlockBack(w: Bytes, rest: Bytes)
    ensures LoadBlock(w + rest, |w|) == Got(w, rest)
  {
  }

  /** `LoadInt`: a number with the sign bit is no size. */
  function LoadInt(b: Bytes): (r: Read<nat>)
    ensures r.Got? ==> |r.rest| + INT_SIZE == |b| && r.v <= MAX_INT
  {
    match LoadBlock(b, INT_SIZE)
    case Failed(e) => Failed(e)
    case Got(w, rest) => if UnLe(w) > MAX_INT then Failed(BadInteger) else Got(UnLe(w), rest)
  }

  lemma IntBack(n: nat, rest: Bytes)
    requires n <= MAX_INT
    ensures LoadInt(Le(n, INT_SIZE) + rest) == Got(n, rest)
  {
    FourBytes();
    LeBack(n, INT_SIZE);
    BlockBack(Le(n, INT_SIZE), rest);
  }

  /** The elements of a vector, each of four bytes. */
  function Vector(l: seq<Word>): Bytes { if l == [] then [] else Le(l[0], INT_SIZE) + Vector(l[1..]) }

  function LoadVector(b: Bytes, n: nat): (r: Read<seq<Word>>)
    ensures r.Got? ==> |r.v| == n && |r.rest| <= |b|
    decreases n
  {
    if n == 0 then Got([], b)
    else
      match LoadBlock(b, INT_SIZE)
      case Failed(e) => Failed(e)
      case Got(w, rest) =>
        FourBound(w);
        match LoadVector(rest, n - 1)
        case Failed(e) => Failed(e)
        case Got(l, last) => Got([UnLe(w)] + l, last)
  }

  lemma {:induction false} UnLeBound(w: Bytes)
    ensures UnLe(w) < Pow256(|w|)
  {
    if w != [] { UnLeBound(w[1..]); }
  }

  lemma FourBound(w: Bytes)
    requires |w| == INT_SIZE
    ensures UnLe(w) < 0x1_0000_0000
  {
    UnLeBound(w);
    FourBytes();
  }

  lemma {:induction false} VectorBack(l: seq<Word>, rest: Bytes)
    ensures LoadVector(Vector(l) + rest, |l|) == Got(l, rest)
    decreases |l|
  {
    hide Le, UnLe, Pow256, LoadBlock;
    if l == [] {
      assert Vector(l) + rest == rest;
    } else {
      var more := Vector(l[1..]) + rest;
      assert Vector(l) + rest == Le(l[0], INT_SIZE) + more;
      WordBack(l[0], more);
      VectorBack(l[1..], rest);
      assert [l[0]] + l[1..] == l;
    }
  }

  lemma WordBack(n: Word, more: Bytes)
    ensures LoadBlock(Le(n, INT_SIZE) + more, INT_SIZE) == Got(Le(n, INT_SIZE), more) && UnLe(Le(n, INT_SIZE)) == n
  {
    hide Le, UnLe, Pow256;
    FourBytes();
    LeBack(n, INT_SIZE);
    BlockBack(Le(n, INT_SIZE), more);
  }

  /** A vector with its length before it: the code, or the lines. */
  function Sized(l: seq<Word>): Bytes { Le(|l|, INT_SIZE) + Vector(l) }

  function LoadSized(b: Bytes): (r: Read<seq<Word>>)
    ensures r.Got? ==> |r.rest| < |b|
  {
    match LoadInt(b)
    case Failed(e) => Failed(e)
    case Got(n, rest) => LoadVector(rest, n)
  }

  lemma SizedBack(l: seq<Word>, rest: Bytes)
    requires |l| <= MAX_INT
    ensures LoadSized(Sized(l) + rest) == Got(l, rest)
  {
    assert Sized(l) + rest == Le(|l|, INT_SIZE) + (Vector(l) + rest);
    IntBack(|l|, Vector(l) + rest);
    VectorBack(l, rest);
  }

  // Strings

  /** `DumpString`: the size includes a zero at the end; a null string has size 0. */
  function DumpString(s: Option<Bytes>): Bytes {
    if s == None then Le(0, SIZE_T_SIZE) else Le(|s.value| + 1, SIZE_T_SIZE) + (s.value + [0])
  }

  function LoadString(b: Bytes): (r: Read<Option<Bytes>>)
    ensures r.Got? ==> |r.rest| < |b|
  {
    match LoadBlock(b, SIZE_T_SIZE)
    case Failed(e) => Failed(e)
    case Got(w, rest) =>
      var size := UnLe(w);
      if size == 0 then Got(None, rest)
      else
        match LoadBlock(rest, size)
        case Failed(e) => Failed(e)
        case Got(s, last) => Got(Some(s[..size - 1]), last)
  }

  predicate StringFits(s: Option<Bytes>) { s.Some? ==> |s.value| + 1 < Pow256(SIZE_T_SIZE) }

  lemma Pow256Positive(k: nat)
    ensures Pow256(k) > 0
  {
  }

  lemma StringBack(s: Option<Bytes>, rest: Bytes)
    requires StringFits(s)
    ensures LoadString(DumpString(s) + rest) == Got(s, rest)
  {
    hide Pow256;
    if s == None {
      Pow256Positive(SIZE_T_SIZE);
      LeBack(0, SIZE_T_SIZE);
      BlockBack(Le(0, SIZE_T_SIZE), rest);
    } else {
      var size, t := |s.value| + 1, s.value + [0];
      assert DumpString(s) + rest == Le(size, SIZE_T_SIZE) + (t + rest);
      LeBack(size, SIZE_T_SIZE);
      BlockBack(Le(size, SIZE_T_SIZE), t + rest);
      BlockBack(t, rest);
      assert t[..size - 1] == s.value;
    }
  }

  // Constants

  const TAG_NIL: Byte := 0
  const TAG_BOOLEAN: Byte := 1
  const TAG_NUMBER: Byte := 3
  const TAG_STRING: Byte := 4

  function DumpConstant(k: Constant): Bytes {
    match k
    case NilConstant => [TAG_NIL]
    case BoolConstant(b) => [TAG_BOOLEAN, if b then 1 else 0]
    case NumberConstant(bytes) => [TAG_NUMBER] + bytes
    case StringConstant(text) => [TAG_STRING] + DumpString(Some(text))
  }

  /** One constant; a null string, which no dump holds, counts as empty. */
  function LoadConstant(b: Bytes): (r: Read<Constant>)
    ensures r.Got? ==> |r.rest| < |b|
  {
    if b == [] then Failed(UnexpectedEnd)
    else if b[0] == TAG_NIL then Got(NilConstant, b[1..])
    else if b[0] == TAG_BOOLEAN then if |b| == 1 then Failed(UnexpectedEnd) else Got(BoolConstant(b[1] != 0), b[2..])
    else if b[0] == TAG_NUMBER then
      match LoadBlock(b[1..], NUMBER_SIZE)
      case Failed(e) => Failed(e)
      case Got(w, rest) => Got(NumberConstant(w), rest)
    else if b[0] == TAG_STRING then
      match LoadString(b[1..])
      case Failed(e) => Failed(e)
      case Got(s, rest) => Got(StringConstant(if s == None then [] else s.value), rest)
    else Failed(BadConstant)
  }

  predicate ConstantFits(k: Constant) {
    match k
    case NumberConstant(bytes) => |bytes| == NUMBER_SIZE
    case StringConstant(text) => StringFits(Some(text))
    case _ => true
  }

  lemma ConstantBack(k: Constant, rest: Bytes)
    requires ConstantFits(k)
    ensures LoadConstant(DumpConstant(k) + rest) == Got(k, rest)
  {
    hide LoadString, DumpString;
    var b := DumpConstant(k) + rest;
    match k
    case NilConstant => assert b[1..] == rest;
    case BoolConstant(_) => assert b[2..] == rest;
    case NumberConstant(bytes) =>
      assert b[1..] == bytes + rest;
      BlockBack(bytes, rest);
    case StringConstant(text) =>
      assert b[1..] == DumpString(Some(text)) + rest;
      StringBack(Some(text), rest);
  }

  function DumpConstants(l: seq<Constant>): Bytes { if l == [] then [] else DumpConstant(l[0]) + DumpConstants(l[1..]) }

  function LoadConstants(b: Bytes, n: nat): (r: Read<seq<Constant>>)
    ensures r.Got? ==> |r.v| == n && |r.rest| <= |b|
    decreases n
  {
    if n == 0 then Got([], b)
    else
      match LoadConstant(b)
      case Failed(e) => Failed(e)
      case Got(k, rest) =>
        match LoadConstants(rest, n - 1)
        case Failed(e) => Failed(e)
        case Got(l, last) => Got([k] + l, last)
  }

  lemma {:induction false} ConstantsBack(l: seq<Constant>, rest: Bytes)
    requires forall k :: k in l ==> ConstantFits(k)
    ensures LoadConstants(DumpConstants(l) + rest, |l|) == Got(l, rest)
    decreases |l|
  {
    hide LoadConstant, DumpConstant, ConstantFits;
    if l == [] {
      assert DumpConstants(l) + rest == rest;
    } else {
      var more := DumpConstants(l[1..]) + rest;
      assert DumpConstants(l) + rest == DumpConstant(l[0]) + more;
      ConstantBack(l[0], more);
      ConstantsBack(l[1..], rest);
      assert [l[0]] + l[1..] == l;
    }
  }

  // Debug information

  function DumpLocVar(v: LocVar): Bytes { DumpString(v.name) + (Le(v.startpc, INT_SIZE) + Le(v.endpc, INT_SIZE)) }

  function LoadLocVar(b: Bytes): (r: Read<LocVar>)
    ensures r.Got? ==> |r.rest| < |b|
  {
    match LoadString(b)
    case Failed(e) => Failed(e)
    case Got(name, r1) =>
      match LoadInt(r1)
      case Failed(e) => Failed(e)
      case Got(startpc, r2) =>
        match LoadInt(r2)
        case Failed(e) => Failed(e)
        case Got(endpc, r3) => Got(LocVar(name, startpc, endpc), r3)
  }

  predicate LocVarFits(v: LocVar) { StringFits(v.name) && v.startpc <= MAX_INT && v.endpc <= MAX_INT }

  lemma LocVarBack(v: LocVar, rest: Bytes)
    requires LocVarFits(v)
    ensures LoadLocVar(DumpLocVar(v) + rest) == Got(v, rest)
  {
    hide LoadString, DumpString, LoadInt, Le, StringFits;
    var a, b := Le(v.startpc, INT_SIZE), Le(v.endpc, INT_SIZE);
    assert DumpLocVar(v) + rest == DumpString(v.name) + (a + (b + rest));
    StringBack(v.name, a + (b + rest));
    IntBack(v.startpc, b + rest);
    IntBack(v.endpc, rest);
  }

  function DumpLocVars(l: seq<LocVar>): Bytes { if l == [] then [] else DumpLocVar(l[0]) + DumpLocVars(l[1..]) }

  function LoadLocVars(b: Bytes, n: nat): (r: Read<seq<LocVar>>)
    ensures r.Got? ==> |r.v| == n && |r.rest| <= |b|
    decreases n
  {
    if n == 0 then Got([], b)
    else
      match LoadLocVar(b)
      case Failed(e) => Failed(e)
      case Got(v, rest) =>
        match LoadLocVars(rest, n - 1)
        case Failed(e) => Failed(e)
        case Got(l, last) => Got([v] + l, last)
  }

  lemma {:induction false} LocVarsBack(l: seq<LocVar>, rest: Bytes)
    requires forall v :: v in l ==> LocVarFits(v)
    ensures LoadLocVars(DumpLocVars(l) + rest, |l|) == Got(l, rest)
    decreases |l|
  {
    hide LoadLocVar, DumpLocVar, LocVarFits;
    if l == [] {
      assert DumpLocVars(l) + rest == rest;
    } else {
      var more := DumpLocVars(l[1..]) + rest;
      assert DumpLocVars(l) + rest == DumpLocVar(l[0]) + more;
      LocVarBack(l[0], more);
      LocVarsBack(l[1..], rest);
      assert [l[0]] + l[1..] == l;
    }
  }

  function DumpNames(l: seq<Option<Bytes>>): Bytes { if l == [] then [] else DumpString(l[0]) + DumpNames(l[1..]) }

  function LoadNames(b: Bytes, n: nat): (r: Read<seq<Option<Bytes>>>)
    ensures r.Got? ==> |r.v| == n && |r.rest| <= |b|
    decreases n
  {
    if n == 0 then Got([], b)
    else
      match LoadString(b)
      case Failed(e) => Failed(e)
      case Got(s, rest) =>
        match LoadNames(rest, n - 1)
        case Failed(e) => Failed(e)
        case Got(l, last) => Got([s] + l, last)
  }

  lemma {:induction false} NamesBack(l: seq<Option<Bytes>>, rest: Bytes)
    requires forall s :: s in l ==> StringFits(s)
    ensures LoadNames(DumpNames(l) + rest, |l|) == Got(l, rest)
    decreases |l|
  {
    hide LoadString, DumpString, StringFits;
    if l == [] {
      assert DumpNames(l) + rest == rest;
    } else {
      var more := DumpNames(l[1..]) + rest;
      assert DumpNames(l) + rest == DumpString(l[0]) + more;
      StringBack(l[0], more);
      NamesBack(l[1..], rest);
      assert [l[0]] + l[1..] == l;
    }
  }

  datatype Debug = Debug(lineinfo: seq<Word>, locvars: seq<LocVar>, upvalues: seq<Option<Bytes>>)

  function DumpDebug(d: Debug): Bytes {
    Sized(d.lineinfo) + (Le(|d.locvars|, INT_SIZE) +
                         (DumpLocVars(d.locvars) + (Le(|d.upvalues|, INT_SIZE) + DumpNames(d.upvalues))))
  }

  function LoadDebug(b: Bytes): (r: Read<Debug>)
    ensures r.Got? ==> |r.rest| <= |b|
  {
    match LoadSized(b)
    case Failed(e) => Failed(e)
    case Got(lines, r1) =>
      match LoadInt(r1)
      case Failed(e) => Failed(e)
      case Got(n, r2) =>
        match LoadLocVars(r2, n)
        case Failed(e) => Failed(e)
        case Got(vars, r3) =>
          match LoadInt(r3)
          case Failed(e) => Failed(e)
          case Got(m, r4) =>
            match LoadNames(r4, m)
            case Failed(e) => Failed(e)
            case Got(names, r5) => Got(Debug(lines, vars, names), r5)
  }

  predicate DebugFits(d: Debug) {
    && |d.lineinfo| <= MAX_INT && |d.locvars| <= MAX_INT && |d.upvalues| <= MAX_INT
    && (forall v :: v in d.locvars ==> LocVarFits(v))
    && (forall s :: s in d.upvalues ==> StringFits(s))
  }

  lemma DebugBack(d: Debug, rest: Bytes)
    requires DebugFits(d)
    ensures LoadDebug(DumpDebug(d) + rest) == Got(d, rest)
  {
    hide LoadSized, Sized, LoadInt, Le, LoadLocVars, DumpLocVars, LoadNames, DumpNames, LocVarFits, StringFits;
    var r4 := DumpNames(d.upvalues) + rest;
    var r3 := Le(|d.upvalues|, INT_SIZE) + r4;
    var r2 := DumpLocVars(d.locvars) + r3;
    var r1 := Le(|d.locvars|, INT_SIZE) + r2;
    assert DumpDebug(d) + rest == Sized(d.lineinfo) + r1;
    SizedBack(d.lineinfo, r1);
    IntBack(|d.locvars|, r2);
    LocVarsBack(d.locvars, r3);
    IntBack(|d.upvalues|, r4);
    NamesBack(d.upvalues, rest);
  }

  // Functions

  /** What comes before the code. */
  datatype Head = Head(source: Option<Bytes>, linedefined: nat, lastlinedefined: nat, nups: Byte, numparams: Byte,
                       isVararg: Byte, maxstacksize: Byte)

  function HeadOf(f: Proto, source: Option<Bytes>): Head {
    Head(source, f.linedefined, f.lastlinedefined, f.nups, f.numparams, f.isVararg, f.maxstacksize)
  }

  function DumpHead(h: Head): Bytes {
    DumpString(h.source) + (Le(h.linedefined, INT_SIZE) +
                            (Le(h.lastlinedefined, INT_SIZE) + [h.nups, h.numparams, h.isVararg, h.maxstacksize]))
  }

  function LoadHead(b: Bytes): (r: Read<Head>)
    ensures r.Got? ==> |r.rest| < |b|
  {
    match LoadString(b)
    case Failed(e) => Failed(e)
    case Got(source, r1) =>
      match LoadInt(r1)
      case Failed(e) => Failed(e)
      case Got(first, r2) =>
        match LoadInt(r2)
        case Failed(e) => Failed(e)
        case Got(last, r3) =>
          match LoadBlock(r3, 4)
          case Failed(e) => Failed(e)
          case Got(w, r4) => Got(Head(source, first, last, w[0], w[1], w[2], w[3]), r4)
  }

  predicate HeadFits(h: Head) { StringFits(h.source) && h.linedefined <= MAX_INT && h.lastlinedefined <= MAX_INT }

  lemma HeadBack(h: Head, rest: Bytes)
    requires HeadFits(h)
    ensures LoadHead(DumpHead(h) + rest) == Got(h, rest)
  {
    hide LoadString, DumpString, LoadInt, Le, LoadBlock, StringFits;
    var w := [h.nups, h.numparams, h.isVararg, h.maxstacksize];
    var r2 := Le(h.lastlinedefined, INT_SIZE) + (w + rest);
    var r1 := Le(h.linedefined, INT_SIZE) + r2;
    assert DumpHead(h) + rest == DumpString(h.source) + r1;
    StringBack(h.source, r1);
    IntBack(h.linedefined, r2);
    IntBack(h.lastlinedefined, w + rest);
    BlockBack(w, rest);
  }

  function DebugOf(f: Proto, strip: bool): Debug {
    if strip then Debug([], [], []) else Debug(f.lineinfo, f.locvars, f.upvalues)
  }

  /** `DumpFunction`: a function whose source is that of its parent is written without one. */
  function DumpFunction(f: Proto, parent: Option<Bytes>, strip: bool): Bytes
    decreases f, 1, 0
  {
    DumpHead(HeadOf(f, if f.source == parent || strip then None else f.source))
    + (Sized(f.code)
    + (Le(|f.k|, INT_SIZE) + (DumpConstants(f.k)
    + (Le(|f.p|, INT_SIZE) + (DumpFunctions(f, 0, strip)
    + DumpDebug(DebugOf(f, strip)))))))
  }

  /** The nested functions from the `i`th on. */
  function DumpFunctions(f: Proto, i: nat, strip: bool): Bytes
    requires i <= |f.p|
    decreases f, 0, |f.p| - i
  {
    if i == |f.p| then [] else
      assert f.p[i] in f.p;
      DumpFunction(f.p[i], f.source, strip) + DumpFunctions(f, i + 1, strip)
  }

  const LUAI_MAXCCALLS: nat := 200

  /** `LoadFunction`: `p` is the source of the parent, `level` counts the calls that are nested already. */
  function LoadFunction(b: Bytes, p: Option<Bytes>, level: nat): (r: Read<Proto>)
    ensures r.Got? ==> |r.rest| < |b|
    decreases |b|, 0
  {
    if level + 1 > LUAI_MAXCCALLS then Failed(TooDeep)
    else
      match LoadHead(b)
      case Failed(e) => Failed(e)
      case Got(h, r1) =>
        var source := if h.source == None then p else h.source;
        match LoadSized(r1)
        case Failed(e) => Failed(e)
        case Got(code, r2) =>
          match LoadInt(r2)
          case Failed(e) => Failed(e)
          case Got(n, r3) =>
            match LoadConstants(r3, n)
            case Failed(e) => Failed(e)
            case Got(k, r4) =>
              match LoadInt(r4)
              case Failed(e) => Failed(e)
              case Got(m, r5) =>
                match LoadFunctions(r5, m, source, level + 1)
                case Failed(e) => Failed(e)
                case Got(ps, r6) =>
                  match LoadDebug(r6)
                  case Failed(e) => Failed(e)
                  case Got(d, r7) =>
                    var f := Proto(source, h.linedefined, h.lastlinedefined, h.nups, h.numparams, h.isVararg,
                                   h.maxstacksize,
                                   code, k, ps, d.lineinfo, d.locvars, d.upvalues);
                    if Accepted(f) then Got(f, r7) else Failed(BadCode)
  }

  function LoadFunctions(b: Bytes, n: nat, p: Option<Bytes>, level: nat): (r: Read<seq<Proto>>)
    ensures r.Got? ==> |r.v| == n && |r.rest| <= |b|
    decreases |b|, 1, n
  {
    if n == 0 then Got([], b)
    else
      match LoadFunction(b, p, level)
      case Failed(e) => Failed(e)
      case Got(f, rest) =>
        match LoadFunctions(rest, n - 1, p, level)
        case Failed(e) => Failed(e)
        case Got(l, last) => Got([f] + l, last)
  }

  // Dumping and loading

  /** All sizes fit the fields that hold them, in the nested functions too. */
  predicate Fits(f: Proto)
    decreases f
  {
    && HeadFits(HeadOf(f, f.source)) && DebugFits(DebugOf(f, false))
    && |f.code| <= MAX_INT && |f.k| <= MAX_INT && |f.p| <= MAX_INT
    && (forall k :: k in f.k ==> ConstantFits(k))
    && forall q :: q in f.p ==> Fits(q)
  }

  /** No source is null. */
  predicate Sourced(f: Proto)
    decreases f
  {
    f.source.Some? && forall q :: q in f.p ==> Sourced(q)
  }

  /** The verifier accepts all functions, and they are not nested too deep. */
  predicate AllAccepted(f: Proto, level: nat)
    decreases f
  {
    Accepted(f) && level < LUAI_MAXCCALLS && forall q :: q in f.p ==> AllAccepted(q, level + 1)
  }

  const UNKNOWN: Bytes := [61, 63]

  /** The function without its debug information, and with "=?" for all sources. */
  function Erased(f: Proto): Proto
    decreases f, 1, 0
  {
    f.(source := Some(UNKNOWN), p := ErasedFrom(f, 0), lineinfo := [], locvars := [], upvalues := [])
  }

  function ErasedFrom(f: Proto, i: nat): (r: seq<Proto>)
    requires i <= |f.p|
    ensures |r| == |f.p| - i && forall j :: i <= j < |f.p| ==> r[j - i] == Erased(f.p[j])
    decreases f, 0, |f.p| - i
  {
    if i == |f.p| then [] else [Erased(f.p[i])] + ErasedFrom(f, i + 1)
  }

  /** The verifier does not look at what is erased. */
  lemma {:induction false} ErasedAccepted(f: Proto, level: nat)
    requires AllAccepted(f, level)
    ensures AllAccepted(Erased(f), level)
    decreases f
  {
    hide Accepted;
    ErasedOne(f);
    forall q | q in Erased(f).p
      ensures AllAccepted(q, level + 1)
    {
      var i :| 0 <= i < |f.p| && Erased(f).p[i] == q;
      assert f.p[i] in f.p;
      ErasedAccepted(f.p[i], level + 1);
    }
  }

  lemma ErasedOne(f: Proto)
    requires Accepted(f)
    ensures Accepted(Erased(f))
  {
    hide InstrOk, IsInstr;
    var e := Erased(f);
    forall i | 0 <= i < |f.p|
      ensures e.p[i].nups == f.p[i].nups
    {
    }
    forall pc | 0 <= pc < |e.code| && IsInstr(e.code, pc)
      ensures InstrOk(e, pc)
    {
      assert InstrOk(f, pc);
      ErasedInstr(f, e, pc);
    }
  }

  lemma ErasedInstr(f: Proto, e: Proto, pc: nat)
    requires pc < |f.code| && InstrOk(f, pc) && |e.p| == |f.p|
             && forall i :: 0 <= i < |f.p| ==> e.p[i].nups == f.p[i].nups
    requires e == f.(source := e.source, p := e.p, lineinfo := e.lineinfo, locvars := e.locvars, upvalues := e.upvalues)
    ensures InstrOk(e, pc)
  {
    hide Op, A, B, C, Bx, SBx, IsInstr;
  }

  /** What comes back: the function itself, or with `strip` the erased one. */
  function Result(f: Proto, strip: bool): Proto { if strip then Erased(f) else f }

  /** The source that the parent passes on: with `strip` it is always "=?". */
  predicate Passes(parent: Option<Bytes>, p: Option<Bytes>, strip: bool) {
    if strip then p == Some(UNKNOWN) else parent == None || parent == p
  }

  /** What is needed for reading back. */
  predicate Loads(f: Proto, strip: bool, level: nat) {
    Fits(f) && AllAccepted(Result(f, strip), level) && (strip || Sourced(f))
  }

  lemma {:induction false} FunctionBack(f: Proto, parent: Option<Bytes>, p: Option<Bytes>, strip: bool, level: nat,
                                        rest: Bytes)
    requires Loads(f, strip, level) && Passes(parent, p, strip)
    ensures LoadFunction(DumpFunction(f, parent, strip) + rest, p, level) == Got(Result(f, strip), rest)
    decreases f, 1, 0
  {
    hide DumpHead, LoadHead, Sized, LoadSized, Le, LoadInt, DumpConstants, LoadConstants, DumpDebug, LoadDebug;
    hide LoadFunctions, DumpFunctions;
    hide HeadFits, DebugFits, ConstantFits, Accepted, Loads, StringFits;
    LoadsParts(f, strip, level);
    var source := if f.source == parent || strip then None else f.source;
    var d := DebugOf(f, strip);
    var r6 := DumpDebug(d) + rest;
    var r5 := DumpFunctions(f, 0, strip) + r6;
    var r4 := Le(|f.p|, INT_SIZE) + r5;
    var r3 := DumpConstants(f.k) + r4;
    var r2 := Le(|f.k|, INT_SIZE) + r3;
    var r1 := Sized(f.code) + r2;
    assert DumpFunction(f, parent, strip) + rest == DumpHead(HeadOf(f, source)) + r1;
    HeadBack(HeadOf(f, source), r1);
    SizedBack(f.code, r2);
    IntBack(|f.k|, r3);
    ConstantsBack(f.k, r4);
    IntBack(|f.p|, r5);
    var s := if source == None then p else source;
    assert s == Result(f, strip).source;
    FunctionsBack(f, 0, s, strip, level, r6);
    DebugBack(d, rest);
    if strip { ErasedWhole(f); }
  }

  lemma ErasedWhole(f: Proto)
    ensures Erased(f).p == ErasedFrom(f, 0)
  {
  }

  lemma LoadsParts(f: Proto, strip: bool, level: nat)
    requires Loads(f, strip, level)
    ensures HeadFits(HeadOf(f, f.source)) && HeadFits(HeadOf(f, None)) && DebugFits(DebugOf(f, false))
            && DebugFits(DebugOf(f, true))
    ensures |f.code| <= MAX_INT && |f.k| <= MAX_INT && |f.p| <= MAX_INT && forall k :: k in f.k ==> ConstantFits(k)
    ensures (strip || f.source.Some?) && Accepted(Result(f, strip)) && level < LUAI_MAXCCALLS
    ensures forall i :: 0 <= i < |f.p| ==> Loads(f.p[i], strip, level + 1)
  {
    hide Accepted, ConstantFits;
    forall i | 0 <= i < |f.p|
      ensures Loads(f.p[i], strip, level + 1)
    {
      assert f.p[i] in f.p && Result(f, strip).p[i] in Result(f, strip).p;
      assert Result(f, strip).p[i] == Result(f.p[i], strip);
    }
  }

  lemma {:induction false} FunctionsBack(f: Proto, i: nat, s: Option<Bytes>, strip: bool, level: nat, rest: Bytes)
    requires Loads(f, strip, level) && i <= |f.p| && s == Result(f, strip).source
    ensures LoadFunctions(DumpFunctions(f, i, strip) + rest, |f.p| - i, s, level + 1) ==
              Got(if strip then ErasedFrom(f, i) else f.p[i..], rest)
    decreases f, 0, |f.p| - i
  {
    hide LoadFunction, DumpFunction, Loads;
    LoadsParts(f, strip, level);
    if i == |f.p| {
      assert DumpFunctions(f, i, strip) + rest == rest && f.p[i..] == [];
    } else {
      var q := f.p[i];
      var more := DumpFunctions(f, i + 1, strip) + rest;
      assert DumpFunctions(f, i, strip) + rest == DumpFunction(q, f.source, strip) + more;
      FunctionBack(q, f.source, s, strip, level + 1, more);
      FunctionsBack(f, i + 1, s, strip, level, rest);
      assert [q] + f.p[i + 1..] == f.p[i..];
    }
  }

  // Chunks

  /** `luaU_header`, for the sizes above and little-endian order. */
  const HEADER: Bytes := [27, 76, 117, 97, 0x51, 0, 1, INT_SIZE, SIZE_T_SIZE, 4, NUMBER_SIZE, 0]

  /** `luaU_dump`. */
  function Dump(f: Proto, strip: bool): Bytes
  {
    HEADER + DumpFunction(f, None, strip)
  }

  /** `luaU_undump`; `level` counts the C calls that are active already. */
  function Undump(b: Bytes, level: nat): Read<Proto> {
    match LoadBlock(b, |HEADER|)
    case Failed(e) => Failed(e)
    case Got(h, rest) => if h != HEADER then Failed(BadHeader) else LoadFunction(rest, Some(UNKNOWN), level)
  }

  /** Undumping a dump gives the function back; with `strip` it gives it without its debug information. */
  lemma UndumpsDump(f: Proto, strip: bool, level: nat, rest: Bytes)
    requires Loads(f, strip, level)
    ensures Undump(Dump(f, strip) + rest, level) == Got(Result(f, strip), rest)
  {
    hide LoadFunction, DumpFunction, Loads;
    var b := DumpFunction(f, None, strip) + rest;
    assert Dump(f, strip) + rest == HEADER + b;
    BlockBack(HEADER, b);
    FunctionBack(f, None, Some(UNKNOWN), strip, level, rest);
  }

  /**
    Exactly when it does: the verifier must accept what comes back, the nesting must not be too deep, and without
    `strip`
    no source may be null.
   */
  lemma UndumpExact(f: Proto, strip: bool, level: nat, rest: Bytes)
    requires Fits(f)
    ensures Undump(Dump(f, strip) + rest, level) == Got(Result(f, strip), rest) <==>
            AllAccepted(Result(f, strip), level) && (strip || Sourced(f))
  {
    hide LoadFunction, DumpFunction, AllAccepted, Sourced, Fits, Erased, Dump;
    var b := Dump(f, strip) + rest;
    if Undump(b, level) == Got(Result(f, strip), rest) {
      var r := LoadBlock(b, |HEADER|);
      LoadedAccepted(r.rest, Some(UNKNOWN), level);
      if !strip { LoadedSourced(r.rest, Some(UNKNOWN), level); }
    }
    if AllAccepted(Result(f, strip), level) && (strip || Sourced(f)) { UndumpsDump(f, strip, level, rest); }
  }

  /** A function that can be dumped whole can be dumped with `strip`. */
  lemma StripLoads(f: Proto, level: nat)
    requires Loads(f, false, level)
    ensures Loads(f, true, level)
  {
    ErasedAccepted(f, level);
  }

  /** Everything that is loaded was accepted by the verifier, with all nested functions, which are not too many deep. */
  lemma {:induction false} LoadedAccepted(b: Bytes, p: Option<Bytes>, level: nat)
    ensures var r := LoadFunction(b, p, level); r.Got? ==> AllAccepted(r.v, level)
    decreases |b|, 0
  {
    hide LoadHead, LoadSized, LoadInt, LoadConstants, LoadDebug, Accepted, LoadFunctions;
    if level < LUAI_MAXCCALLS && LoadFunction(b, p, level).Got? {
      var h := LoadHead(b);
      var source := if h.v.source == None then p else h.v.source;
      var r2 := LoadSized(h.rest);
      var r3 := LoadInt(r2.rest);
      var r4 := LoadConstants(r3.rest, r3.v);
      var r5 := LoadInt(r4.rest);
      NestedAccepted(r5.rest, r5.v, source, level + 1);
    }
  }

  lemma {:induction false} NestedAccepted(b: Bytes, n: nat, p: Option<Bytes>, level: nat)
    ensures var r := LoadFunctions(b, n, p, level); r.Got? ==> forall q :: q in r.v ==> AllAccepted(q, level)
    decreases |b|, 1, n
  {
    hide LoadFunction;
    if n > 0 {
      LoadedAccepted(b, p, level);
      var r := LoadFunction(b, p, level);
      if r.Got? { NestedAccepted(r.rest, n - 1, p, level); }
    }
  }

  /** What is loaded below a parent with a source has a source. */
  lemma {:induction false} LoadedSourced(b: Bytes, p: Option<Bytes>, level: nat)
    requires p.Some?
    ensures var r := LoadFunction(b, p, level); r.Got? ==> Sourced(r.v)
    decreases |b|, 0
  {
    hide LoadHead, LoadSized, LoadInt, LoadConstants, LoadDebug, Accepted, LoadFunctions;
    if level < LUAI_MAXCCALLS && LoadFunction(b, p, level).Got? {
      var h := LoadHead(b);
      var source := if h.v.source == None then p else h.v.source;
      var r2 := LoadSized(h.rest);
      var r3 := LoadInt(r2.rest);
      var r4 := LoadConstants(r3.rest, r3.v);
      var r5 := LoadInt(r4.rest);
      NestedSourced(r5.rest, r5.v, source, level + 1);
    }
  }

  lemma {:induction false} NestedSourced(b: Bytes, n: nat, p: Option<Bytes>, level: nat)
    requires p.Some?
    ensures var r := LoadFunctions(b, n, p, level); r.Got? ==> forall q :: q in r.v ==> Sourced(q)
    decreases |b|, 1, n
  {
    hide LoadFunction;
    if n > 0 {
      LoadedSourced(b, p, level);
      var r := LoadFunction(b, p, level);
      if r.Got? { NestedSourced(r.rest, n - 1, p, level); }
    }
  }
}
