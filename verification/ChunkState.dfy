/** The writer and the reader of precompiled chunks in place (`ldump.c`, `lundump.c`). */
module ChunkState {
  import opened Common
  import opened Bytecode
  import opened Verifier
  import opened Chunk

  lemma Regroup(first: Bytes, a: Bytes, b: Bytes, c: Bytes, d: Bytes)
    ensures first + a + b + c + d == first + (a + (b + (c + d)))
  {
  }

  // `DumpState`

  class DumpState {
    const strip: bool
    var data: Bytes

    constructor (s: bool)
      ensures strip == s && data == []
    {
      strip, data := s, [];
    }

    method DumpBlock(b: Bytes)
      modifies this`data
      ensures data == old(data) + b
    {
      data := data + b;
    }

    method DumpInt(n: nat)
      modifies this`data
      ensures data == old(data) + Le(n, INT_SIZE)
    {
      DumpBlock(Le(n, INT_SIZE));
    }

    method DumpVector(l: seq<Word>)
      modifies this`data
      ensures data == old(data) + Sized(l)
    {
      hide Le, Vector;
      DumpInt(|l|);
      DumpBlock(Vector(l));
    }

    method DumpStr(s: Option<Bytes>)
      modifies this`data
      ensures data == old(data) + DumpString(s)
    {
      hide Le;
      if s == None {
        DumpBlock(Le(0, SIZE_T_SIZE));
      } else {
        DumpBlock(Le(|s.value| + 1, SIZE_T_SIZE));
        DumpBlock(s.value + [0]);
      }
    }

    method DumpOne(k: Constant)
      modifies this`data
      ensures data == old(data) + DumpConstant(k)
    {
      hide DumpString;
      match k
      case NilConstant => DumpBlock([TAG_NIL]);
      case BoolConstant(b) =>
        DumpBlock([TAG_BOOLEAN]);
        DumpBlock([if b then 1 else 0]);
      case NumberConstant(bytes) =>
        DumpBlock([TAG_NUMBER]);
        DumpBlock(bytes);
      case StringConstant(text) =>
        DumpBlock([TAG_STRING]);
        DumpStr(Some(text));
    }

    /** `DumpConstants`: the constants, and after them the nested functions. */
    method DumpConstantsOf(f: Proto)
      modifies this`data
      ensures data == old(data) + (Le(|f.k|, INT_SIZE) +
                                   (DumpConstants(f.k) + (Le(|f.p|, INT_SIZE) + DumpFunctions(f, 0, strip))))
      decreases f, 0
    {
      hide Le, DumpConstant, DumpFunction;
      ghost var first := data;
      DumpInt(|f.k|);
      var i := 0;
      assert f.k[0..] == f.k;
      while i < |f.k|
        invariant i <= |f.k| && data + DumpConstants(f.k[i..]) == first + Le(|f.k|, INT_SIZE) + DumpConstants(f.k)
      {
        DumpOne(f.k[i]);
        i := i + 1;
        assert f.k[i - 1..][1..] == f.k[i..];
      }
      assert f.k[i..] == [] && data + [] == data;
      DumpInt(|f.p|);
      ghost var second := data;
      i := 0;
      while i < |f.p|
        invariant i <= |f.p| && data + DumpFunctions(f, i, strip) == second + DumpFunctions(f, 0, strip)
      {
        assert f.p[i] in f.p;
        DumpFunctionOf(f.p[i], f.source);
        i := i + 1;
      }
      assert data + [] == data;
      Regroup(first, Le(|f.k|, INT_SIZE), DumpConstants(f.k), Le(|f.p|, INT_SIZE), DumpFunctions(f, 0, strip));
    }

    method DumpVars(l: seq<LocVar>)
      modifies this`data
      ensures data == old(data) + DumpLocVars(l)
    {
      hide Le, DumpString;
      var i := 0;
      assert l[0..] == l;
      while i < |l|
        invariant i <= |l| && data + DumpLocVars(l[i..]) == old(data) + DumpLocVars(l)
      {
        DumpStr(l[i].name);
        DumpInt(l[i].startpc);
        DumpInt(l[i].endpc);
        i := i + 1;
        assert l[i - 1..][1..] == l[i..];
      }
    }

    method DumpStrings(l: seq<Option<Bytes>>)
      modifies this`data
      ensures data == old(data) + DumpNames(l)
    {
      hide DumpString;
      var i := 0;
      assert l[0..] == l;
      while i < |l|
        invariant i <= |l| && data + DumpNames(l[i..]) == old(data) + DumpNames(l)
      {
        DumpStr(l[i]);
        i := i + 1;
        assert l[i - 1..][1..] == l[i..];
      }
    }

    method DumpDebugOf(d: Debug)
      modifies this`data
      ensures data == old(data) + DumpDebug(d)
    {
      hide Le, Sized, DumpLocVars, DumpNames;
      ghost var first := data + Sized(d.lineinfo);
      DumpVector(d.lineinfo);
      DumpInt(|d.locvars|);
      DumpVars(d.locvars);
      DumpInt(|d.upvalues|);
      DumpStrings(d.upvalues);
      Regroup(first, Le(|d.locvars|, INT_SIZE), DumpLocVars(d.locvars), Le(|d.upvalues|, INT_SIZE),
              DumpNames(d.upvalues));
    }

    method DumpHeadOf(h: Head)
      modifies this`data
      ensures data == old(data) + DumpHead(h)
    {
      hide Le, DumpString;
      DumpStr(h.source);
      DumpInt(h.linedefined);
      DumpInt(h.lastlinedefined);
      DumpBlock([h.nups]);
      DumpBlock([h.numparams]);
      DumpBlock([h.isVararg]);
      DumpBlock([h.maxstacksize]);
    }

    /** `DumpFunction`. */
    method DumpFunctionOf(f: Proto, parent: Option<Bytes>)
      modifies this`data
      ensures data == old(data) + DumpFunction(f, parent, strip)
      decreases f, 1
    {
      hide Le, DumpHead, Sized, DumpConstants, DumpFunctions, DumpDebug;
      DumpHeadOf(HeadOf(f, if f.source == parent || strip then None else f.source));
      DumpVector(f.code);
      DumpConstantsOf(f);
      DumpDebugOf(DebugOf(f, strip));
    }

    /** `luaU_dump`. */
    method DumpChunk(f: Proto)
      modifies this`data
      ensures data == old(data) + Dump(f, strip)
    {
      hide DumpFunction;
      DumpBlock(HEADER);
      DumpFunctionOf(f, None);
    }
  }

  // `LoadState`

  datatype Loaded<T> = Ok(v: T) | Err(e: ChunkError)

  /** The result of a method that reads, and what is left to read, are those of the function. */
  predicate Agrees<T(==)>(q: Read<T>, r: Loaded<T>, rest: Bytes) {
    if q.Got? then r == Ok(q.v) && rest == q.rest else r == Err(q.e)
  }

  function Behind<T>(l: seq<T>, r: Read<seq<T>>): Read<seq<T>> { if r.Got? then Got(l + r.v, r.rest) else r }

  lemma BehindNone<T>(r: Read<seq<T>>)
    ensures Behind([], r) == r
  {
    if r.Got? { assert [] + r.v == r.v; }
  }

  class LoadState {
    const input: Bytes
    var pos: nat
    var nCcalls: nat

    predicate Valid()
      reads this
    {
      pos <= |input|
    }

    constructor (b: Bytes, level: nat)
      ensures Valid() && input == b && pos == 0 && nCcalls == level
    {
      input, pos, nCcalls := b, 0, level;
    }

    method LoadBytes(n: nat) returns (r: Loaded<Bytes>)
      requires Valid()
      modifies this`pos
      ensures Valid() && Agrees(LoadBlock(input[old(pos)..], n), r, input[pos..])
    {
      if |input| - pos < n { return Err(UnexpectedEnd); }
      assert input[pos..][..n] == input[pos..pos + n] && input[pos..][n..] == input[pos + n..];
      r := Ok(input[pos..pos + n]);
      pos := pos + n;
    }

    method LoadNat() returns (r: Loaded<nat>)
      requires Valid()
      modifies this`pos
      ensures Valid() && Agrees(LoadInt(input[old(pos)..]), r, input[pos..])
    {
      hide UnLe;
      var w := LoadBytes(INT_SIZE);
      if w.Err? { return Err(w.e); }
      r := if UnLe(w.v) > MAX_INT then Err(BadInteger) else Ok(UnLe(w.v));
    }

    method LoadStr() returns (r: Loaded<Option<Bytes>>)
      requires Valid()
      modifies this`pos
      ensures Valid() && Agrees(LoadString(input[old(pos)..]), r, input[pos..])
    {
      hide UnLe;
      var w := LoadBytes(SIZE_T_SIZE);
      if w.Err? { return Err(w.e); }
      var size := UnLe(w.v);
      if size == 0 { return Ok(None); }
      var s := LoadBytes(size);
      if s.Err? { return Err(s.e); }
      r := Ok(Some(s.v[..size - 1]));
    }

    method LoadWords() returns (r: Loaded<seq<Word>>)
      requires Valid()
      modifies this`pos
      ensures Valid() && Agrees(LoadSized(input[old(pos)..]), r, input[pos..])
    {
      hide LoadInt, UnLe;
      var n := LoadNat();
      if n.Err? { return Err(n.e); }
      ghost var b := input[pos..];
      var l: seq<Word> := [];
      BehindNone(LoadVector(b, n.v));
      while |l| < n.v
        invariant Valid() && |l| <= n.v && LoadVector(b, n.v) == Behind(l, LoadVector(input[pos..], n.v - |l|))
      {
        ghost var rest := input[pos..];
        VectorNext(l, rest, n.v - |l|);
        var w := LoadBytes(INT_SIZE);
        if w.Err? { return Err(w.e); }
        FourBound(w.v);
        l := l + [UnLe(w.v)];
      }
      assert l + [] == l;
      r := Ok(l);
    }

    method LoadOne() returns (r: Loaded<Constant>)
      requires Valid()
      modifies this`pos
      ensures Valid() && Agrees(LoadConstant(input[old(pos)..]), r, input[pos..])
    {
      hide LoadString;
      ghost var b := input[pos..];
      var t := LoadBytes(1);
      if t.Err? { return Err(t.e); }
      assert input[pos..] == b[1..];
      if t.v[0] == TAG_NIL { return Ok(NilConstant); }
      if t.v[0] == TAG_BOOLEAN {
        var x := LoadBytes(1);
        if x.Err? { return Err(x.e); }
        assert input[pos..] == b[2..];
        return Ok(BoolConstant(x.v[0] != 0));
      }
      if t.v[0] == TAG_NUMBER {
        var x := LoadBytes(NUMBER_SIZE);
        return if x.Err? then Err(x.e) else Ok(NumberConstant(x.v));
      }
      if t.v[0] == TAG_STRING {
        var x := LoadStr();
        return if x.Err? then Err(x.e) else Ok(StringConstant(if x.v == None then [] else x.v.value));
      }
      r := Err(BadConstant);
    }

    method LoadConstantsOf(n: nat) returns (r: Loaded<seq<Constant>>)
      requires Valid()
      modifies this`pos
      ensures Valid() && Agrees(LoadConstants(input[old(pos)..], n), r, input[pos..])
    {
      hide LoadConstant;
      ghost var b := input[pos..];
      var l: seq<Constant> := [];
      BehindNone(LoadConstants(b, n));
      while |l| < n
        invariant Valid() && |l| <= n && LoadConstants(b, n) == Behind(l, LoadConstants(input[pos..], n - |l|))
      {
        ConstantsNext(l, input[pos..], n - |l|);
        var k := LoadOne();
        if k.Err? { return Err(k.e); }
        l := l + [k.v];
      }
      assert l + [] == l;
      r := Ok(l);
    }

    method LoadVar() returns (r: Loaded<LocVar>)
      requires Valid()
      modifies this`pos
      ensures Valid() && Agrees(LoadLocVar(input[old(pos)..]), r, input[pos..])
    {
      hide LoadString, LoadInt;
      var name := LoadStr();
      if name.Err? { return Err(name.e); }
      var startpc := LoadNat();
      if startpc.Err? { return Err(startpc.e); }
      var endpc := LoadNat();
      r := if endpc.Err? then Err(endpc.e) else Ok(LocVar(name.v, startpc.v, endpc.v));
    }

    method LoadVars(n: nat) returns (r: Loaded<seq<LocVar>>)
      requires Valid()
      modifies this`pos
      ensures Valid() && Agrees(LoadLocVars(input[old(pos)..], n), r, input[pos..])
    {
      hide LoadLocVar;
      ghost var b := input[pos..];
      var l: seq<LocVar> := [];
      BehindNone(LoadLocVars(b, n));
      while |l| < n
        invariant Valid() && |l| <= n && LoadLocVars(b, n) == Behind(l, LoadLocVars(input[pos..], n - |l|))
      {
        VarsNext(l, input[pos..], n - |l|);
        var v := LoadVar();
        if v.Err? { return Err(v.e); }
        l := l + [v.v];
      }
      assert l + [] == l;
      r := Ok(l);
    }

    method LoadStrings(n: nat) returns (r: Loaded<seq<Option<Bytes>>>)
      requires Valid()
      modifies this`pos
      ensures Valid() && Agrees(LoadNames(input[old(pos)..], n), r, input[pos..])
    {
      hide LoadString;
      ghost var b := input[pos..];
      var l: seq<Option<Bytes>> := [];
      BehindNone(LoadNames(b, n));
      while |l| < n
        invariant Valid() && |l| <= n && LoadNames(b, n) == Behind(l, LoadNames(input[pos..], n - |l|))
      {
        NamesNext(l, input[pos..], n - |l|);
        var s := LoadStr();
        if s.Err? { return Err(s.e); }
        l := l + [s.v];
      }
      assert l + [] == l;
      r := Ok(l);
    }

    method LoadDebugOf() returns (r: Loaded<Debug>)
      requires Valid()
      modifies this`pos
      ensures Valid() && Agrees(LoadDebug(input[old(pos)..]), r, input[pos..])
    {
      hide LoadSized, LoadInt, LoadLocVars, LoadNames;
      var lines := LoadWords();
      if lines.Err? { return Err(lines.e); }
      var n := LoadNat();
      if n.Err? { return Err(n.e); }
      var vars := LoadVars(n.v);
      if vars.Err? { return Err(vars.e); }
      var m := LoadNat();
      if m.Err? { return Err(m.e); }
      var names := LoadStrings(m.v);
      r := if names.Err? then Err(names.e) else Ok(Debug(lines.v, vars.v, names.v));
    }

    method LoadHeadOf() returns (r: Loaded<Head>)
      requires Valid()
      modifies this`pos
      ensures Valid() && Agrees(LoadHead(input[old(pos)..]), r, input[pos..])
    {
      hide LoadString, LoadInt;
      var source := LoadStr();
      if source.Err? { return Err(source.e); }
      var first := LoadNat();
      if first.Err? { return Err(first.e); }
      var last := LoadNat();
      if last.Err? { return Err(last.e); }
      var w := LoadBytes(4);
      r := if w.Err? then Err(w.e) else Ok(Head(source.v, first.v, last.v, w.v[0], w.v[1], w.v[2], w.v[3]));
    }

    /** The nested functions. */
    method LoadFunctionsOf(n: nat, p: Option<Bytes>) returns (r: Loaded<seq<Proto>>)
      requires Valid()
      modifies this`pos, this`nCcalls
      ensures Valid() && Agrees(LoadFunctions(input[old(pos)..], n, p, old(nCcalls)), r, input[pos..])
      ensures r.Ok? ==> nCcalls == old(nCcalls) && pos >= old(pos)
      decreases |input| - pos, 1
    {
      hide LoadFunction;
      ghost var b, level := input[pos..], nCcalls;
      var l: seq<Proto> := [];
      BehindNone(LoadFunctions(b, n, p, level));
      while |l| < n
        invariant Valid() && pos >= old(pos) && nCcalls == level && |l| <= n
        invariant LoadFunctions(b, n, p, level) == Behind(l, LoadFunctions(input[pos..], n - |l|, p, level))
        decreases n - |l|
      {
        FunctionsNext(l, input[pos..], n - |l|, p, level);
        var f := LoadFunctionOf(p);
        if f.Err? { return Err(f.e); }
        l := l + [f.v];
      }
      assert l + [] == l;
      r := Ok(l);
    }

    /** `LoadFunction`. */
    method LoadFunctionOf(p: Option<Bytes>) returns (r: Loaded<Proto>)
      requires Valid()
      modifies this`pos, this`nCcalls
      ensures Valid() && Agrees(LoadFunction(input[old(pos)..], p, old(nCcalls)), r, input[pos..])
      ensures r.Ok? ==> nCcalls == old(nCcalls) && pos > old(pos)
      decreases |input| - pos, 0
    {
      hide LoadHead, LoadSized, LoadInt, LoadConstants, LoadFunctions, LoadDebug, Accepted;
      nCcalls := nCcalls + 1;
      if nCcalls > LUAI_MAXCCALLS { return Err(TooDeep); }
      var h := LoadHeadOf();
      if h.Err? { return Err(h.e); }
      var source := if h.v.source == None then p else h.v.source;
      var code := LoadWords();
      if code.Err? { return Err(code.e); }
      var n := LoadNat();
      if n.Err? { return Err(n.e); }
      var k := LoadConstantsOf(n.v);
      if k.Err? { return Err(k.e); }
      var m := LoadNat();
      if m.Err? { return Err(m.e); }
      var ps := LoadFunctionsOf(m.v, source);
      if ps.Err? { return Err(ps.e); }
      var d := LoadDebugOf();
      if d.Err? { return Err(d.e); }
      var f := Proto(source, h.v.linedefined, h.v.lastlinedefined, h.v.nups, h.v.numparams, h.v.isVararg,
                     h.v.maxstacksize,
                     code.v, k.v, ps.v, d.v.lineinfo, d.v.locvars, d.v.upvalues);
      var ok := CheckCode(f);
      if !ok { return Err(BadCode); }
      nCcalls := nCcalls - 1;
      r := Ok(f);
    }

    /** `luaU_undump`. */
    method LoadChunk() returns (r: Loaded<Proto>)
      requires Valid()
      modifies this`pos, this`nCcalls
      ensures Valid() && Agrees(Undump(input[old(pos)..], old(nCcalls)), r, input[pos..])
    {
      hide LoadFunction;
      var h := LoadBytes(|HEADER|);
      if h.Err? { return Err(h.e); }
      if h.v != HEADER { return Err(BadHeader); }
      r := LoadFunctionOf(Some(UNKNOWN));
    }
  }

  // One more element

  lemma VectorNext(l: seq<Word>, b: Bytes, n: nat)
    requires n > 0
    ensures var q := LoadBlock(b, INT_SIZE);
            && (q.Failed? ==> Behind(l, LoadVector(b, n)) == Failed(q.e))
            && (q.Got? ==> UnLe(q.v) < 0x1_0000_0000
                           && Behind(l, LoadVector(b, n)) == Behind(l + [UnLe(q.v)], LoadVector(q.rest, n - 1)))
  {
    hide UnLe;
    var q := LoadBlock(b, INT_SIZE);
    if q.Got? { FourBound(q.v); }
    if q.Got? && LoadVector(q.rest, n - 1).Got? { Grouped(l, [UnLe(q.v)], LoadVector(q.rest, n - 1).v); }
  }

  lemma Grouped<T>(a: seq<T>, b: seq<T>, c: seq<T>)
    ensures a + b + c == a + (b + c)
  {
  }

  lemma ConstantsNext(l: seq<Constant>, b: Bytes, n: nat)
    requires n > 0
    ensures var q := LoadConstant(b);
            Behind(l, LoadConstants(b, n)) ==
                  if q.Failed? then Failed(q.e) else Behind(l + [q.v], LoadConstants(q.rest, n - 1))
  {
    hide LoadConstant;
    var q := LoadConstant(b);
    if q.Got? && LoadConstants(q.rest, n - 1).Got? { Grouped(l, [q.v], LoadConstants(q.rest, n - 1).v); }
  }

  lemma VarsNext(l: seq<LocVar>, b: Bytes, n: nat)
    requires n > 0
    ensures var q := LoadLocVar(b);
            Behind(l, LoadLocVars(b, n)) ==
                  if q.Failed? then Failed(q.e) else Behind(l + [q.v], LoadLocVars(q.rest, n - 1))
  {
    hide LoadLocVar;
    var q := LoadLocVar(b);
    if q.Got? && LoadLocVars(q.rest, n - 1).Got? { Grouped(l, [q.v], LoadLocVars(q.rest, n - 1).v); }
  }

  lemma NamesNext(l: seq<Option<Bytes>>, b: Bytes, n: nat)
    requires n > 0
    ensures var q := LoadString(b);
            Behind(l, LoadNames(b, n)) == if q.Failed? then Failed(q.e) else Behind(l + [q.v], LoadNames(q.rest, n - 1))
  {
    hide LoadString;
    var q := LoadString(b);
    if q.Got? && LoadNames(q.rest, n - 1).Got? { Grouped(l, [q.v], LoadNames(q.rest, n - 1).v); }
  }

  lemma FunctionsNext(l: seq<Proto>, b: Bytes, n: nat, p: Option<Bytes>, level: nat)
    requires n > 0
    ensures var q := LoadFunction(b, p, level);
            Behind(l, LoadFunctions(b, n, p, level)) ==
              if q.Failed? then Failed(q.e) else Behind(l + [q.v], LoadFunctions(q.rest, n - 1, p, level))
  {
    hide LoadFunction;
    var q := LoadFunction(b, p, level);
    if q.Got? && LoadFunctions(q.rest, n - 1, p, level).Got? {
      Grouped(l, [q.v], LoadFunctions(q.rest, n - 1, p, level).v);
    }
  }
}
