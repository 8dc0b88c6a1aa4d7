/** The bytes of precompiled chunks: numbers least significant byte first, and a whole chunk byte by byte. */
module ChunkFormat {
  import opened Common
  import opened Bytecode
  import opened Chunk

  lemma LeStep(n: nat, k: nat)
    requires k > 0
    ensures Le(n, k) == [n % 256] + Le(n / 256, k - 1) && Le(n, 0) == []
  {
  }

  /** An integer takes four bytes. */
  lemma IntBytes(n: nat)
    ensures Le(n, 4) == [n % 0x100, n / 0x100 % 0x100, n / 0x1_0000 % 0x100, n / 0x100_0000 % 0x100]
  {
    hide Le;
    LeStep(n, 4);
    LeStep(n / 0x100, 3);
    LeStep(n / 0x100 / 0x100, 2);
    LeStep(n / 0x100 / 0x100 / 0x100, 1);
    assert n / 0x100 / 0x100 == n / 0x1_0000 && n / 0x100 / 0x100 / 0x100 == n / 0x100_0000;
  }

  /** A size takes eight. */
  lemma SizeBytes(n: nat)
    requires n < 0x100
    ensures Le(n, 8) == [n, 0, 0, 0, 0, 0, 0, 0]
  {
    hide Le;
    LeStep(n, 8);
    LeStep(0, 7);
    LeStep(0, 6);
    LeStep(0, 5);
    IntBytes(0);
  }

  lemma SmallInt(n: nat)
    requires n < 0x100
    ensures Le(n, 4) == [n, 0, 0, 0]
  {
    IntBytes(n);
  }

  /** A string has its size before it, with the zero at its end counted; without a string the size is 0. */
  lemma StringBytes(s: Bytes)
    requires |s| < 0xff
    ensures DumpString(None) == [0, 0, 0, 0, 0, 0, 0, 0]
    ensures DumpString(Some(s)) == [|s| + 1, 0, 0, 0, 0, 0, 0, 0] + s + [0]
  {
    hide Le;
    SizeBytes(0);
    SizeBytes(|s| + 1);
  }

  // A chunk

  /** Within another function, with the same source. */
  const INNER: Proto := Proto(Some([64, 97]), 16, 17, 18, 19, 20, 21, [], [], [], [], [], [])

  const OUTER: Proto :=
    Proto(Some([64, 97]), 1, 0x302, 4, 5, 6, 7, [0x0c0b_0a09],
          [NilConstant, BoolConstant(true), NumberConstant([31, 32, 33, 34, 35, 36, 37, 38]), StringConstant([107])],
          [INNER], [0x41], [LocVar(Some([120]), 0x42, 0x43)], [Some([117])])

  const SIGNATURE: Bytes := [27, 76, 117, 97, 81, 0, 1, 4, 8, 4, 8, 0]

  const INNER_BYTES: Bytes :=
    [0, 0, 0, 0, 0, 0, 0, 0] + [16, 0, 0, 0] + [17, 0, 0, 0] + [18, 19, 20, 21]  // no source, lines, four bytes
    + [0, 0, 0, 0] + [0, 0, 0, 0] + [0, 0, 0, 0]                                 // code, constants, functions
    + [0, 0, 0, 0] + [0, 0, 0, 0] + [0, 0, 0, 0]                                 // lines, locals, upvalues

  const HEAD_BYTES: Bytes :=
    [3, 0, 0, 0, 0, 0, 0, 0] + [64, 97, 0] + [1, 0, 0, 0] + [2, 3, 0, 0] + [4, 5, 6, 7]

  const BODY_BYTES: Bytes :=
    [1, 0, 0, 0] + [9, 10, 11, 12]
    + [4, 0, 0, 0] + [0] + [1, 1] + [3, 31, 32, 33, 34, 35, 36, 37, 38] + [4] + [2, 0, 0, 0, 0, 0, 0, 0] + [107, 0]
    + [1, 0, 0, 0] + INNER_BYTES

  const DEBUG_BYTES: Bytes :=
    [1, 0, 0, 0] + [0x41, 0, 0, 0]
    + [1, 0, 0, 0] + [2, 0, 0, 0, 0, 0, 0, 0] + [120, 0] + [0x42, 0, 0, 0] + [0x43, 0, 0, 0]
    + [1, 0, 0, 0] + [2, 0, 0, 0, 0, 0, 0, 0] + [117, 0]

  lemma InnerBytes(parent: Option<Bytes>, strip: bool)
    requires strip || parent == Some([64, 97])
    ensures DumpFunction(INNER, parent, strip) == INNER_BYTES
  {
    hide DumpHead, DumpDebug, Le, Sized;
    InnerHead();
    InnerRest(strip);
    SmallInt(0);
    assert DumpFunctions(INNER, 0, strip) == [];
  }

  lemma InnerHead()
    ensures DumpHead(HeadOf(INNER, None)) == [0, 0, 0, 0, 0, 0, 0, 0] + [16, 0, 0, 0] + [17, 0, 0, 0] + [18, 19, 20, 21]
  {
    hide Le, DumpString;
    StringBytes([]);
    SmallInt(16);
    SmallInt(17);
  }

  lemma InnerRest(strip: bool)
    ensures DumpDebug(DebugOf(INNER, strip)) == [0, 0, 0, 0] + [0, 0, 0, 0] + [0, 0, 0, 0]
    ensures Sized(INNER.code) == [0, 0, 0, 0]
  {
    hide Le;
    SmallInt(0);
  }

  lemma HeadBytes()
    ensures DumpHead(HeadOf(OUTER, OUTER.source)) == HEAD_BYTES
    ensures DumpHead(HeadOf(OUTER, None)) == STRIPPED_HEAD
  {
    hide Le, DumpString;
    StringBytes([64, 97]);
    IntBytes(1);
    IntBytes(0x302);
  }

  lemma ConstantBytes()
    ensures DumpConstants(OUTER.k) ==
            [0] + [1, 1] + [3, 31, 32, 33, 34, 35, 36, 37, 38] + [4] + [2, 0, 0, 0, 0, 0, 0, 0] + [107, 0]
  {
    hide DumpConstants, DumpConstant;
    var n := NumberConstant([31, 32, 33, 34, 35, 36, 37, 38]);
    ConstantIs();
    ConstantsNone();
    var l3 := [StringConstant([107])] + [];
    var l2 := [n] + l3;
    var l1 := [BoolConstant(true)] + l2;
    ConstantsCons(StringConstant([107]), []);
    ConstantsCons(n, l3);
    ConstantsCons(BoolConstant(true), l2);
    ConstantsCons(NilConstant, l1);
    assert OUTER.k == [NilConstant] + l1;
  }

  lemma ConstantIs()
    ensures DumpConstant(NilConstant) == [0] && DumpConstant(BoolConstant(true)) == [1, 1]
    ensures DumpConstant(NumberConstant([31, 32, 33, 34, 35, 36, 37, 38])) == [3, 31, 32, 33, 34, 35, 36, 37, 38]
    ensures DumpConstant(StringConstant([107])) == [4] + [2, 0, 0, 0, 0, 0, 0, 0] + [107, 0]
  {
    hide DumpString;
    StringBytes([107]);
  }

  lemma ConstantsNone()
    ensures DumpConstants([]) == []
  {
  }

  lemma ConstantsCons(k: Constant, l: seq<Constant>)
    ensures DumpConstants([k] + l) == DumpConstant(k) + DumpConstants(l)
  {
    hide DumpConstant;
    assert ([k] + l)[1..] == l;
  }

  lemma BodyBytes(strip: bool)
    ensures BODY_BYTES ==
            Sized(OUTER.code)
            + (Le(|OUTER.k|, INT_SIZE)
               + (DumpConstants(OUTER.k) + (Le(|OUTER.p|, INT_SIZE) + DumpFunctions(OUTER, 0, strip))))
  {
    hide Le, DumpConstants, DumpFunctions, Sized;
    ConstantBytes();
    NestedBytes(strip);
    CodeBytes();
    SmallInt(1);
    SmallInt(4);
  }

  lemma NestedBytes(strip: bool)
    ensures DumpFunctions(OUTER, 0, strip) == INNER_BYTES
  {
    hide DumpFunction;
    InnerBytes(OUTER.source, strip);
    assert DumpFunctions(OUTER, 1, strip) == [];
    assert DumpFunctions(OUTER, 0, strip) == INNER_BYTES + [];
  }

  lemma CodeBytes()
    ensures Sized(OUTER.code) == [1, 0, 0, 0] + [9, 10, 11, 12]
  {
    hide Le;
    SmallInt(1);
    IntBytes(0x0c0b_0a09);
    assert Vector(OUTER.code) == [9, 10, 11, 12] + Vector(OUTER.code[1..]);
  }

  lemma DebugBytes()
    ensures DumpDebug(DebugOf(OUTER, false)) == DEBUG_BYTES
    ensures DumpDebug(DebugOf(OUTER, true)) == NO_DEBUG
  {
    hide Le, DumpString;
    SmallInt(0);
    SmallInt(1);
    SmallInt(0x41);
    SmallInt(0x42);
    SmallInt(0x43);
    StringBytes([120]);
    StringBytes([117]);
    var d := DebugOf(OUTER, false);
    assert Vector(d.lineinfo) == [0x41, 0, 0, 0] + Vector(d.lineinfo[1..]);
    assert DumpLocVars(d.locvars) == DumpLocVar(d.locvars[0]) + DumpLocVars(d.locvars[1..]);
    assert DumpNames(d.upvalues) == [2, 0, 0, 0, 0, 0, 0, 0] + [117] + [0] + DumpNames(d.upvalues[1..]);
  }

  const STRIPPED_HEAD: Bytes := [0, 0, 0, 0, 0, 0, 0, 0] + [1, 0, 0, 0] + [2, 3, 0, 0] + [4, 5, 6, 7]

  const NO_DEBUG: Bytes := [0, 0, 0, 0] + [0, 0, 0, 0] + [0, 0, 0, 0]

  /** A chunk with one of everything, whole and stripped, byte by byte in the order in which it is written. */
  lemma ChunkBytes()
    ensures Dump(OUTER, false) == SIGNATURE + HEAD_BYTES + BODY_BYTES + DEBUG_BYTES
    ensures Dump(OUTER, true) == SIGNATURE + STRIPPED_HEAD + BODY_BYTES + NO_DEBUG
  {
    hide *;
    HeadBytes();
    BodyBytes(false);
    BodyBytes(true);
    DebugBytes();
    Together(false, HEAD_BYTES, BODY_BYTES, DEBUG_BYTES);
    Together(true, STRIPPED_HEAD, BODY_BYTES, NO_DEBUG);
  }

  lemma Together(strip: bool, head: Bytes, body: Bytes, debug: Bytes)
    requires DumpHead(HeadOf(OUTER, if strip then None else OUTER.source)) == head
    requires DumpDebug(DebugOf(OUTER, strip)) == debug
    requires body ==
             Sized(OUTER.code)
             + (Le(|OUTER.k|, INT_SIZE)
                + (DumpConstants(OUTER.k) + (Le(|OUTER.p|, INT_SIZE) + DumpFunctions(OUTER, 0, strip))))
    ensures Dump(OUTER, strip) == SIGNATURE + head + body + debug
  {
    hide DumpHead, Sized, Le, DumpConstants, DumpFunctions, DumpDebug;
    assert DumpFunction(OUTER, None, strip) == head + body + debug;
  }

  // Malformed input

  /** A chunk with another signature is refused. */
  lemma HeaderRule(b: Bytes, level: nat)
    ensures |b| < 12 ==> Undump(b, level) == Failed(UnexpectedEnd)
    ensures |b| >= 12 && b[..12] != SIGNATURE ==> Undump(b, level) == Failed(BadHeader)
  {
  }

  lemma UnLeStep(b: Bytes)
    ensures UnLe(b) == if b == [] then 0 else b[0] + 0x100 * UnLe(b[1..])
  {
  }

  /** Four bytes are an integer, unless its sign bit is set. */
  lemma IntRule(b: Bytes)
    ensures |b| < 4 ==> LoadInt(b) == Failed(UnexpectedEnd)
    ensures |b| >= 4 ==>
              LoadInt(b) ==
              if b[3] >= 128 then Failed(BadInteger)
              else Got((b[0] as nat) + 0x100 * (b[1] as nat) + 0x1_0000 * (b[2] as nat) + 0x100_0000 * (b[3] as nat),
                       b[4..])
  {
    hide UnLe;
    if |b| >= 4 {
      var w := b[..4];
      UnLeStep(w);
      UnLeStep(w[1..]);
      UnLeStep(w[1..][1..]);
      UnLeStep(w[1..][1..][1..]);
      UnLeStep(w[1..][1..][1..][1..]);
    }
  }

  /** Constants by their tags; any byte but zero is true, and other tags are refused. */
  lemma ConstantRule(b: Bytes)
    requires b != []
    ensures b[0] == 0 ==> LoadConstant(b) == Got(NilConstant, b[1..])
    ensures b[0] == 1 && |b| > 1 ==> LoadConstant(b) == Got(BoolConstant(b[1] > 0), b[2..])
    ensures b[0] == 3 && |b| > 8 ==> LoadConstant(b) == Got(NumberConstant(b[1..9]), b[9..])
    ensures b[0] == 2 || b[0] > 4 ==> LoadConstant(b) == Failed(BadConstant)
    ensures (b[0] == 1 && |b| == 1) || (b[0] == 3 && |b| < 9) ==> LoadConstant(b) == Failed(UnexpectedEnd)
  {
    hide LoadString;
    if |b| > 8 { assert b[1..][..8] == b[1..9] && b[1..][8..] == b[9..]; }
  }

  /** With 200 calls active no function is loaded. */
  lemma DepthRule(b: Bytes, p: Option<Bytes>)
    ensures LoadFunction(b, p, 200) == Failed(TooDeep)
  {
  }
}
