/** What the descriptor of an expression means, and that discharging it keeps that meaning. */
module CodeGenSem {
  import opened Common
  import opened JumpCode
  import opened CodeGen
  import opened CodeGenRun

  // Well-formed states and descriptors

  function JumpOf(k: Kind): seq<nat> { if k.VJMP? then [k.jump] else [] }

  /** All jumps that wait: to the next instruction, in the two lists, and the one of a comparison. */
  function Held(s: State, d: ExpDesc): seq<nat> { s.jpc + d.t + d.f + JumpOf(d.k) }

  ghost predicate Lists(s: State, d: ExpDesc) {
    Distinct(Held(s, d)) && AllPending(s.code, Held(s, d))
  }

  /** No jump leads to the end of the code. */
  ghost predicate NoTarget(c: seq<Ins>) {
    forall i :: 0 <= i < |c| && c[i].Jmp? ==> c[i].dest < |c|
  }

  predicate Relocatable(i: Ins) {
    (i.GetUpval? || i.Not?) && i.to.None?
  }

  ghost predicate KindOk(s: State, k: Kind) {
    match k
    case VLOCAL(r) => r < s.nactvar
    case VNONRELOC(r) => r < s.nactvar || r + 1 == s.freereg
    case VJMP(j) => j >= 1 && j + 1 == |s.code| && s.code[j - 1].Compare? && s.jpc == [] && NoTarget(s.code)
    case VRELOCABLE(pc) => pc + 1 == |s.code| && Relocatable(s.code[pc]) && s.jpc == [] && NoTarget(s.code)
    case VK(i) => i < |s.consts| && Truthy(s.consts[i])
    case VKNUM(v) => Truthy(v)
    case _ => true
  }

  /** Jumps lead to the end of the code only where a label was put. */
  ghost predicate Labelled(s: State) {
    |s.code| > s.lasttarget ==> s.jpc == [] && NoTarget(s.code)
  }

  /** The last instruction is no LOADNIL that a following one could be merged into. */
  predicate Sealed(s: State) {
    |s.code| > 0 && |s.code| > s.lasttarget ==> !s.code[|s.code| - 1].LoadNil?
  }

  /** What code generation keeps between expressions. */
  ghost predicate Start(s: State) {
    WellFormed(s.code) && Distinct(s.jpc) && AllPending(s.code, s.jpc) && s.nactvar <= s.freereg && Labelled(s)
  }

  /** A LOADNIL that covers the same registers, or more. */
  predicate Widened(i: Ins, j: Ins) {
    i.LoadNil? && j.LoadNil? && j.a == i.a && j.b >= i.b
  }

  /** The same test, which stores the value in another register, or in none. */
  predicate SameTest(i: Ins, j: Ins) {
    i.TestSet? && (j == Test(i.b, i.c) || (j.TestSet? && j.b == i.b && j.c == i.c))
  }

  /** The code of `s0` is still there, but for the jumps that led to its end, and a LOADNIL there. */
  predicate GrownAt(s0: State, s: State, i: nat)
    requires i < |s0.code| <= |s.code|
  {
    || s.code[i] == s0.code[i]
    || (i in s0.jpc && s.code[i].Jmp?)
    || (i + 1 in s0.jpc && Carries(s0.code, i + 1) && SameTest(s0.code[i], s.code[i]))
    || (i + 1 == |s0.code| && !Sealed(s0) && Widened(s0.code[i], s.code[i]))
  }

  ghost predicate Grown(s0: State, s: State) {
    && |s0.code| <= |s.code| && s.nactvar == s0.nactvar && s0.consts <= s.consts
    && forall i :: 0 <= i < |s0.code| ==> GrownAt(s0, s, i)
  }

  /** Jumps of code emitted since `s0`, or jumps that led to its end. */
  ghost predicate Recent(s0: State, l: seq<nat>) {
    forall j :: j in l ==> j >= |s0.code| || j in s0.jpc
  }

  ghost predicate Base(s0: State, s: State, d: ExpDesc) {
    && Start(s0) && WellFormed(s.code) && Lists(s, d) && Grown(s0, s)
    && Recent(s0, s.jpc) && Recent(s0, d.t + d.f)
  }

  /** The instruction to relocate, or the comparison, was emitted since `s0`. */
  predicate KindNew(s0: State, k: Kind) {
    (k.VRELOCABLE? ==> k.pc >= |s0.code|) && (k.VJMP? ==> k.jump > |s0.code|)
  }

  /** A LOADNIL is the last instruction only where nothing was emitted since `s0`. */
  predicate Settled(s0: State, s: State) {
    Sealed(s) || (|s.code| == |s0.code| && !Sealed(s0))
  }

  /** Only code that was there before `s0`, or was emitted since, ends with a LOADNIL that can be widened. */
  predicate Inherits(s0: State, s: State) {
    Sealed(s) || |s.code| > |s0.code| || !Sealed(s0)
  }

  /** A LOADNIL at the end of `s0` was widened only above the registers in use. */
  predicate Above(s0: State, s: State) {
    var n := |s0.code|;
    0 < n <= |s.code| && s0.code[n - 1].LoadNil? && s.code[n - 1].LoadNil? && s.code[n - 1] != s0.code[n - 1] ==>
      s0.code[n - 1].b + 1 >= s0.freereg
  }

  ghost predicate Ready(s0: State, s: State, d: ExpDesc) {
    && Base(s0, s, d) && KindOk(s, d.k) && KindNew(s0, d.k) && s.freereg == s0.freereg && Settled(s0, s) && Labelled(s)
       && Above(s0, s)
    && (d.k.VNONRELOC? ==> d.k.reg < s.nactvar)
  }

  // Meaning

  /**
    How a run of the code of an expression ends. Control may be at the end of the code, where the descriptor tells
    the place of the value `v`; or it leaves through a list. The tag is the value that is carried by the jump through
    which control is there or leaves, if it carries one.
   */
  datatype Outcome = Stays(v: V, tag: Option<V>) | Leaves(cond: bool, tag: Option<V>)

  /** The outcome, by the registers at the start, and the tag of the jump through which control comes there. */
  type Meaning = (Regs, Option<V>) -> Outcome

  /** What a jump carries. */
  function TagAt(c: seq<Ins>, j: nat, r: Regs): Option<V> {
    if Carries(c, j) then Some(Get(r, c[j - 1].b)) else None
  }

  function TagOf(c: seq<Ins>, out: Out): Option<V> { if out.Fall? then None else TagAt(c, out.j, out.r) }

  /** The value that a kind stands for when execution is here. */
  function KindValue(m: Env, c: seq<Ins>, k: Kind, r: Regs): V {
    match k
    case VNIL => Nil
    case VTRUE => Bool(true)
    case VFALSE => Bool(false)
    case VK(i) => Constant(m, i)
    case VKNUM(v) => v
    case VLOCAL(a) => Get(r, a)
    case VNONRELOC(a) => Get(r, a)
    case VUPVAL(u) => Upval(m, u)
    case VRELOCABLE(pc) =>
      if pc < |c| && c[pc].GetUpval? then Upval(m, c[pc].u)
      else if pc < |c| && c[pc].Not? then Bool(!Truthy(Get(r, c[pc].b)))
      else Nil
    case VJMP(_) => Bool(false)
  }

  ghost predicate Keeps(n: nat, x: Option<nat>, r: Regs, r': Regs) {
    forall a :: 0 <= a < n && x != Some(a) ==> Get(r', a) == Get(r, a)
  }

  /** A comparison is here when it is false, and at its jump when it is true. */
  predicate Compared(k: Kind, v: V, tag: Option<V>, out: Out)
    requires k.VJMP?
  {
    tag == None && if v == Bool(true) then out == JumpCode.Exit(k.jump, out.r) else v == Bool(false) && out.Fall?
  }

  predicate OutOk(m: Env, s: State, d: ExpDesc, o: Outcome, out: Out) {
    match o
    case Stays(v, tag) =>
      if d.k.VJMP? then Compared(d.k, v, tag, out)
      else IsHere(s.jpc, out) && KindValue(m, s.code, d.k, out.r) == v && tag == TagOf(s.code, out)
    case Leaves(cond, tag) =>
      out.Exit? && out.j in (if cond then d.t else d.f) && tag == TagAt(s.code, out.j, out.r)
  }

  /**
    At the start of a function the registers above the parameters are nil; and registers are nil where the code of
    the expression begins after a LOADNIL.
   */
  ghost predicate EntryRegs(s0: State, s: State, r: Regs) {
    && (|s0.code| == 0 ==> forall a :: a >= s0.nactvar ==> Get(r, a) == Nil)
    && (!Sealed(s0) && |s0.code| <= |s.code| && s.code[|s0.code| - 1].LoadNil? ==>
          forall a :: s.code[|s0.code| - 1].a <= a <= s.code[|s0.code| - 1].b ==> Get(r, a) == Nil)
  }

  /** Control comes to the code after `s0` at its beginning, or by a jump. */
  ghost predicate Enters(s0: State, s: State, p: nat, r: Regs) {
    p in s0.jpc || (p == |s0.code| && EntryRegs(s0, s, r))
  }

  function EntryTag(s0: State, p: nat, r: Regs): Option<V> {
    if p == |s0.code| then None else TagAt(s0.code, p, r)
  }

  ghost predicate SemAt(m: Env, f: Meaning, s0: State, s: State, d: ExpDesc, x: Option<nat>, p: nat, r: Regs) {
    p <= |s.code| && (var out := RunAt(m, s.code, p, r);
                      Keeps(s0.freereg, x, r, out.r) && OutOk(m, s, d, f(r, EntryTag(s0, p, r)), out))
  }

  /** Every run of the code emitted since `s0` ends as `f` says. */
  ghost predicate Sem(m: Env, f: Meaning, s0: State, s: State, d: ExpDesc, x: Option<nat>) {
    forall p: nat, r: Regs :: Enters(s0, s, p, r) ==> SemAt(m, f, s0, s, d, x, p, r)
  }

  // Emitting an instruction

  predicate Plain(i: Ins) { !IsTest(i) && !i.Jmp? && !i.Foreign? && !(i.LoadBool? && i.skip) }

  lemma HeldParts(s: State, d: ExpDesc)
    requires Lists(s, d)
    ensures Distinct(s.jpc) && AllPending(s.code, s.jpc) && AllPending(s.code, d.t + d.f)
    ensures forall j :: j in s.jpc ==> j !in d.t && j !in d.f
    ensures forall j :: j in d.t ==> j !in d.f
    ensures Distinct(d.t + d.f) && Distinct(d.t) && Distinct(d.f) && Distinct(d.t + d.f + JumpOf(d.k))
  {
    var j, t, f, w := s.jpc, d.t, d.f, JumpOf(d.k);
    assert Held(s, d) == j + (t + f + w);
    DistinctParts(j, t + f + w);
    DistinctParts(t + f, w);
    DistinctParts(t, f);
    assert forall x :: x in t || x in f ==> x in t + f + w;
    assert forall x :: x in j || x in t + f ==> x in Held(s, d);
  }

  lemma DistinctParts(a: seq<nat>, b: seq<nat>)
    requires Distinct(a + b)
    ensures Distinct(a) && Distinct(b) && forall x :: x in a ==> x !in b
  {
    var l := a + b;
    assert forall i :: 0 <= i < |a| ==> l[i] == a[i];
    assert forall i :: 0 <= i < |b| ==> l[|a| + i] == b[i];
    forall x | x in a
      ensures x !in b
    {
      var i :| 0 <= i < |a| && a[i] == x;
      assert forall k :: 0 <= k < |b| ==> l[i] != b[k];
    }
  }

  /** Pending jumps outside `jpc`, and what controls them, are untouched by the next instruction. */
  lemma EmitAt(s: State, i: Ins)
    requires WellFormed(s.code) && Distinct(s.jpc) && AllPending(s.code, s.jpc)
    ensures var r := Emit(s, i);
            && |r.code| == |s.code| + 1 && r.code[|s.code|] == i && r.jpc == []
            && WellFormed(r.code[..|s.code|])
            && (forall k :: 0 <= k < |s.code| ==> r.code[k] == PatchedAt(s.code, s.jpc, |s.code|, None, |s.code|, k))
            && r == s.(code := r.code, jpc := [])
  {
    PatchListAt(s.code, s.jpc, |s.code|, None, |s.code|);
    DischargedWellFormed(s.code, s.jpc);
    assert Emit(s, i).code[..|s.code|] == DischargeJpc(s).code;
  }

  /** Appending to well-formed code what is not a test keeps it well formed. */
  lemma AppendWellFormed(c: seq<Ins>, i: Ins)
    requires WellFormed(c) && Plain(i)
    ensures WellFormed(c + [i])
  {
    var d := c + [i];
    forall k | 0 <= k < |d|
      ensures OkAt(d, k)
    {
      if k < |c| { assert OkAt(c, k); }
    }
  }

  /** The jumps that do not lead here still wait, under the same control. */
  ghost predicate Untouched(s: State, r: State) {
    forall j: nat :: Pending(s.code, j) && j !in s.jpc ==>
      && Pending(r.code, j) && (Carries(r.code, j) <==> Carries(s.code, j))
      && (j > 0 && IsTest(s.code[j - 1]) ==> r.code[j - 1] == s.code[j - 1])
  }

  /** Any instruction: what becomes of the lists. */
  lemma EmitLists(s0: State, s: State, d: ExpDesc, i: Ins)
    requires WellFormed(s.code) && Lists(s, d) && Grown(s0, s) && Recent(s0, s.jpc) && WellFormed(s0.code)
             && AllPending(s0.code, s0.jpc)
    ensures var r := Emit(s, i);
            && AllPending(r.code, d.t + d.f)
            && Untouched(s, r)
            && Grown(s0, r)
  {
    HeldParts(s, d);
    EmitAt(s, i);
    var r := Emit(s, i);
    var n := |s.code|;
    forall j: nat | Pending(s.code, j) && j !in s.jpc
      ensures Pending(r.code, j) && (Carries(r.code, j) <==> Carries(s.code, j))
              && (j > 0 && IsTest(s.code[j - 1]) ==> r.code[j - 1] == s.code[j - 1])
    {
      assert r.code[j] == PatchedAt(s.code, s.jpc, n, None, n, j);
      if j > 0 {
        assert r.code[j - 1] == PatchedAt(s.code, s.jpc, n, None, n, j - 1) && OkAt(s.code, j - 1);
        if j - 1 in s.jpc { assert Pending(s.code, j - 1); }
      }
    }
    forall k | 0 <= k < |s0.code|
      ensures GrownAt(s0, r, k)
    {
      EmitGrownAt(s0, s, r, k);
    }
  }

  lemma EmitGrownAt(s0: State, s: State, r: State, k: nat)
    requires Grown(s0, s) && Recent(s0, s.jpc) && k < |s0.code| <= |r.code| && WellFormed(s0.code)
             && AllPending(s0.code, s0.jpc)
    requires AllPending(s.code, s.jpc) && r.code[k] == PatchedAt(s.code, s.jpc, |s.code|, None, |s.code|, k)
    ensures GrownAt(s0, r, k)
  {
    assert GrownAt(s0, s, k) && OkAt(s0.code, k);
    if k in s.jpc {
      assert k in s0.jpc;
    } else if k + 1 in s.jpc && Carries(s.code, k + 1) {
      if k + 1 < |s0.code| { assert k + 1 in s0.jpc; }
      if k in s0.jpc { assert Pending(s0.code, k); }
    }
  }

  /** Runs through an emitted plain instruction. */
  lemma EmitRun(m: Env, s: State, i: Ins, start: nat, r: Regs)
    requires WellFormed(s.code) && Distinct(s.jpc) && AllPending(s.code, s.jpc) && StartOk(s.code, start) && Plain(i)
    ensures start <= |Emit(s, i).code|
    ensures var out := RunAt(m, s.code, start, r);
            RunAt(m, Emit(s, i).code, start, r) == if IsHere(s.jpc, out) then Fall(Effect(m, out.r, i)) else out
  {
    DischargedRun(m, s, [i], start, r);
    var out := RunAt(m, s.code, start, r);
    var d := Emit(s, i).code;
    assert d[|s.code|] == i;
    assert Run(m, d, |s.code|, out.r) == Run(m, d, |s.code| + 1, Effect(m, out.r, i));
  }

  /** Runs may begin where control comes to the code after `s0`. */
  lemma EntryOk(s0: State, s: State, p: nat)
    requires Start(s0) && Grown(s0, s) && (p == |s0.code| || p in s0.jpc)
    ensures StartOk(s.code, p) && p <= |s0.code| <= |s.code|
  {
    if p in s0.jpc {
      assert Pending(s0.code, p) && GrownAt(s0, s, p);
    } else if |s0.code| > 0 {
      assert OkAt(s0.code, |s0.code| - 1) && GrownAt(s0, s, |s0.code| - 1);
    }
  }

  /** What the code of `s0` ends with is covered by more registers, or as many. */
  predicate Wider(s0: State, s: State, s': State) {
    !Sealed(s0) && 0 < |s0.code| <= |s.code| && s.code[|s0.code| - 1].LoadNil? ==>
      |s0.code| <= |s'.code| && Widened(s.code[|s0.code| - 1], s'.code[|s0.code| - 1])
  }

  lemma EntersBack(s0: State, s: State, s': State, p: nat, r: Regs)
    requires Wider(s0, s, s') && Enters(s0, s', p, r)
    ensures Enters(s0, s, p, r)
  {
  }

  lemma EmitBase(s0: State, s: State, d: ExpDesc, i: Ins, k: Kind)
    requires Base(s0, s, d) && !d.k.VJMP? && !k.VJMP? && Plain(i)
    ensures var r := Emit(s, i);
            Base(s0, r, d.(k := k)) && NoTarget(r.code) && r.jpc == [] && Labelled(r) && Wider(s0, s, r)
    ensures Above(s0, s) ==> Above(s0, Emit(s, i))
  {
    var r, n := Emit(s, i), |s.code|;
    HeldParts(s, d);
    EmitAt(s, i);
    EmitLists(s0, s, d, i);
    AppendWellFormed(r.code[..n], i);
    assert r.code == r.code[..n] + [i];
    assert Held(r, d.(k := k)) == d.t + d.f;
    forall q | 0 <= q < |r.code| && r.code[q].Jmp?
      ensures r.code[q].dest < |r.code|
    {
      assert OkAt(r.code[..n], q) && r.code[..n][q] == r.code[q];
    }
    EmitNil(s0, s, i);
  }

  /** A LOADNIL at the end of `s0` is not affected. */
  lemma EmitNil(s0: State, s: State, i: Ins)
    requires WellFormed(s.code) && Distinct(s.jpc) && AllPending(s.code, s.jpc) && |s0.code| <= |s.code|
    ensures Wider(s0, s, Emit(s, i)) && (Above(s0, s) ==> Above(s0, Emit(s, i)))
  {
    EmitAt(s, i);
    var n := |s0.code|;
    if n > 0 {
      assert Emit(s, i).code[n - 1] == PatchedAt(s.code, s.jpc, |s.code|, None, |s.code|, n - 1);
      if n - 1 in s.jpc { assert Pending(s.code, n - 1); }
    }
  }

  /** Whatever value is here before the instruction is here after it, in the new place. */
  ghost predicate Transfers(m: Env, c: seq<Ins>, k: Kind, i: Ins, c': seq<Ins>, k': Kind) {
    forall r :: KindValue(m, c', k', Effect(m, r, i)) == KindValue(m, c, k, r)
  }

  /** The instruction writes no register below `n`, but for `y`. */
  ghost predicate Spares(m: Env, n: nat, y: Option<nat>, i: Ins) {
    forall r :: Keeps(n, y, r, Effect(m, r, i))
  }

  lemma KeepsTransitive(n: nat, x: Option<nat>, y: Option<nat>, a: Regs, b: Regs, c: Regs)
    requires Keeps(n, x, a, b) && Keeps(n, y, b, c) && (x == None || x == y)
    ensures Keeps(n, y, a, c)
  {
  }

  lemma KeepsMore(n: nat, x: Option<nat>, y: Option<nat>, a: Regs, b: Regs)
    requires Keeps(n, x, a, b) && (x == None || x == y)
    ensures Keeps(n, y, a, b)
  {
  }

  /** Emitted code discharges the jumps to here, whose values are not needed. */
  function Drop(o: Outcome): Outcome { if o.Stays? then Stays(o.v, None) else o }

  function Dropped(f: Meaning): Meaning { (r, t) => Drop(f(r, t)) }

  lemma EmitSem(m: Env, f: Meaning, s0: State, s: State, d: ExpDesc, x: Option<nat>, y: Option<nat>, i: Ins, k: Kind)
    requires Base(s0, s, d) && Sem(m, f, s0, s, d, x) && !d.k.VJMP? && !k.VJMP? && Plain(i)
    requires Transfers(m, s.code, d.k, i, Emit(s, i).code, k) && Spares(m, s0.freereg, y, i) && (x == None || x == y)
    ensures Sem(m, Dropped(f), s0, Emit(s, i), d.(k := k), y)
  {
    hide Transfers, Spares, Base, Emit, SemAt, Enters, Dropped;
    forall p: nat, r | Enters(s0, Emit(s, i), p, r)
      ensures SemAt(m, Dropped(f), s0, Emit(s, i), d.(k := k), y, p, r)
    {
      EmitSemAt(m, f, s0, s, d, x, y, i, k, p, r);
    }
  }

  lemma EmitSemAt(m: Env, f: Meaning, s0: State, s: State, d: ExpDesc, x: Option<nat>, y: Option<nat>, i: Ins, k: Kind,
                  p: nat, r: Regs)
    requires Base(s0, s, d) && Sem(m, f, s0, s, d, x) && Enters(s0, Emit(s, i), p, r) && !d.k.VJMP? && !k.VJMP?
             && Plain(i)
    requires Transfers(m, s.code, d.k, i, Emit(s, i).code, k) && Spares(m, s0.freereg, y, i) && (x == None || x == y)
    ensures SemAt(m, Dropped(f), s0, Emit(s, i), d.(k := k), y, p, r)
  {
    hide *;
    BaseParts(s0, s, d);
    HeldParts(s, d);
    GrownLength(s0, s);
    EmitNil(s0, s, i);
    EntersBack(s0, s, Emit(s, i), p, r);
    SemParts(m, f, s0, s, d, x, p, r);
    EntersAt(s0, s, p, r);
    EntryOk(s0, s, p);
    EmitLists(s0, s, d, i);
    EmitRun(m, s, i, p, r);
    EmitOut(m, s, d, i, k, s0.freereg, x, y, r, RunAt(m, s.code, p, r), f(r, EntryTag(s0, p, r)));
    DroppedIs(f, r, EntryTag(s0, p, r));
    SemFrom(m, Dropped(f), s0, Emit(s, i), d.(k := k), y, p, r);
  }

  lemma DroppedIs(f: Meaning, r: Regs, t: Option<V>)
    ensures Dropped(f)(r, t) == Drop(f(r, t))
  {
  }

  lemma GrownLength(s0: State, s: State)
    requires Grown(s0, s)
    ensures |s0.code| <= |s.code|
  {
  }

  lemma EntersAt(s0: State, s: State, p: nat, r: Regs)
    requires Enters(s0, s, p, r)
    ensures p == |s0.code| || p in s0.jpc
  {
  }

  lemma SemParts(m: Env, f: Meaning, s0: State, s: State, d: ExpDesc, x: Option<nat>, p: nat, r: Regs)
    requires Sem(m, f, s0, s, d, x) && Enters(s0, s, p, r)
    ensures p <= |s.code|
    ensures var out := RunAt(m, s.code, p, r);
            Keeps(s0.freereg, x, r, out.r) && OutOk(m, s, d, f(r, EntryTag(s0, p, r)), out)
  {
    assert SemAt(m, f, s0, s, d, x, p, r);
  }

  lemma SemFrom(m: Env, f: Meaning, s0: State, s: State, d: ExpDesc, x: Option<nat>, p: nat, r: Regs)
    requires p <= |s.code|
    requires var out := RunAt(m, s.code, p, r);
             Keeps(s0.freereg, x, r, out.r) && OutOk(m, s, d, f(r, EntryTag(s0, p, r)), out)
    ensures SemAt(m, f, s0, s, d, x, p, r)
  {
  }

  lemma SemIs(m: Env, f: Meaning, s0: State, s: State, d: ExpDesc, x: Option<nat>)
    requires forall p: nat, r: Regs :: Enters(s0, s, p, r) ==> SemAt(m, f, s0, s, d, x, p, r)
    ensures Sem(m, f, s0, s, d, x)
  {
  }

  lemma BaseParts(s0: State, s: State, d: ExpDesc)
    requires Base(s0, s, d)
    ensures Start(s0) && WellFormed(s.code) && Lists(s, d) && Grown(s0, s) && Recent(s0, s.jpc) && Recent(s0, d.t + d.f)
    ensures WellFormed(s0.code) && Distinct(s0.jpc) && AllPending(s0.code, s0.jpc)
            && s.nactvar == s0.nactvar <= s0.freereg
  {
  }

  /** What an emitted instruction makes of the outcome of a run. */
  lemma EmitOut(m: Env, s: State, d: ExpDesc, i: Ins, k: Kind, n: nat, x: Option<nat>, y: Option<nat>, r: Regs,
                out: Out, o: Outcome)
    requires Lists(s, d) && Untouched(s, Emit(s, i)) && !d.k.VJMP? && !k.VJMP?
    requires Keeps(n, x, r, out.r) && OutOk(m, s, d, o, out)
    requires Transfers(m, s.code, d.k, i, Emit(s, i).code, k) && Spares(m, n, y, i) && (x == None || x == y)
    ensures var q := if IsHere(s.jpc, out) then Fall(Effect(m, out.r, i)) else out;
            Keeps(n, y, r, q.r) && OutOk(m, Emit(s, i), d.(k := k), Drop(o), q)
  {
    hide Transfers, Spares, KindValue, Effect, Emit, Keeps, Untouched, TagAt;
    EmitJpc(s, i);
    HeldParts(s, d);
    if o.Stays? {
      EmitHere(m, s.code, d.k, i, Emit(s, i).code, k, n, y, out.r);
      KeepsTransitive(n, x, y, r, out.r, Effect(m, out.r, i));
    } else {
      KeepsMore(n, x, y, r, out.r);
      ExitStays(s, Emit(s, i), d, out.j, out.r);
    }
  }

  lemma EmitJpc(s: State, i: Ins)
    ensures Emit(s, i).jpc == []
  {
  }

  lemma EmitHere(m: Env, c: seq<Ins>, k: Kind, i: Ins, c': seq<Ins>, k': Kind, n: nat, y: Option<nat>, r: Regs)
    requires Transfers(m, c, k, i, c', k') && Spares(m, n, y, i)
    ensures KindValue(m, c', k', Effect(m, r, i)) == KindValue(m, c, k, r) && Keeps(n, y, r, Effect(m, r, i))
  {
  }

  /** A jump of the lists carries what it carried. */
  lemma ExitStays(s: State, s': State, d: ExpDesc, j: nat, r: Regs)
    requires Lists(s, d) && (j in d.t || j in d.f) && Untouched(s, s')
    ensures TagAt(s'.code, j, r) == TagAt(s.code, j, r) && j !in s.jpc && Pending(s.code, j)
  {
    HeldParts(s, d);
    assert j in d.t + d.f && Pending(s.code, j);
  }

  // `luaK_dischargevars`

  /** Only for an upvalue code is emitted. */
  function VarsOf(k: Kind, f: Meaning): Meaning { if k.VUPVAL? then Dropped(f) else f }

  lemma ReadyParts(s0: State, s: State, d: ExpDesc)
    requires Ready(s0, s, d)
    ensures Base(s0, s, d) && KindOk(s, d.k) && KindNew(s0, d.k) && s.freereg == s0.freereg && Settled(s0, s)
            && Labelled(s) && Above(s0, s)
    ensures Start(s0) && WellFormed(s.code) && Lists(s, d) && Grown(s0, s) && s.nactvar == s0.nactvar <= s0.freereg
    ensures d.k.VNONRELOC? ==> d.k.reg < s.nactvar
  {
  }

  lemma DischargeVarsOk(m: Env, f: Meaning, s0: State, s: State, d: ExpDesc)
    requires Ready(s0, s, d) && Sem(m, f, s0, s, d, None)
    ensures var (r, g) := DischargeVars(s, d);
            && Ready(s0, r, g) && Sem(m, VarsOf(d.k, f), s0, r, g, None)
            && !g.k.VLOCAL? && !g.k.VUPVAL? && g.t == d.t && g.f == d.f && r.consts == s.consts
               && (g.k.VJMP? ==> g.k == d.k)
  {
    match d.k
    case VLOCAL(a) => RekindOk(m, f, s0, s, d, None, VNONRELOC(a));
    case VUPVAL(u) => UpvalOk(m, f, s0, s, d);
    case _ =>
  }

  lemma UpvalOk(m: Env, f: Meaning, s0: State, s: State, d: ExpDesc)
    requires Ready(s0, s, d) && Sem(m, f, s0, s, d, None) && d.k.VUPVAL?
    ensures var r, g := Emit(s, JumpCode.GetUpval(None, d.k.u)), d.(k := VRELOCABLE(|s.code|));
            Ready(s0, r, g) && Sem(m, Dropped(f), s0, r, g, None)
  {
    hide Base, Sem, Emit;
    var i, k := JumpCode.GetUpval(None, d.k.u), VRELOCABLE(|s.code|);
    ReadyParts(s0, s, d);
    EmitBase(s0, s, d, i, k);
    EmitOther(s, i);
    GrownLength(s0, s);
    EmitSem(m, f, s0, s, d, None, None, i, k);
  }

  // `discharge2reg`

  /** Putting a constant into the table changes no code. */
  lemma ConstsOk(m: Env, f: Meaning, s0: State, s: State, d: ExpDesc, x: Option<nat>, v: V)
    requires Base(s0, s, d) && Sem(m, f, s0, s, d, x)
    ensures Base(s0, AddK(s, v), d) && Sem(m, f, s0, AddK(s, v), d, x)
    ensures AddK(s, v).consts <= m.k ==> Constant(m, KOf(s, v)) == v
    ensures KOf(s, v) < |AddK(s, v).consts| && KOf(s, v) <= |s.consts| && s.consts <= AddK(s, v).consts
  {
    SameCodeOk(m, f, s0, s, AddK(s, v), d, x);
  }

  lemma SameCodeOk(m: Env, f: Meaning, s0: State, s: State, r: State, d: ExpDesc, x: Option<nat>)
    requires Base(s0, s, d) && Sem(m, f, s0, s, d, x)
    requires r.code == s.code && r.jpc == s.jpc && r.nactvar == s.nactvar && s.consts <= r.consts
    ensures Base(s0, r, d) && Sem(m, f, s0, r, d, x) && (Above(s0, s) ==> Above(s0, r))
  {
    BaseSameCode(s0, s, r, d);
    forall p: nat, q | Enters(s0, r, p, q)
      ensures SemAt(m, f, s0, r, d, x, p, q)
    {
      assert SemAt(m, f, s0, s, d, x, p, q);
    }
  }

  lemma BaseSameCode(s0: State, s: State, r: State, d: ExpDesc)
    requires Base(s0, s, d) && r.code == s.code && r.jpc == s.jpc && r.nactvar == s.nactvar && s.consts <= r.consts
    ensures Base(s0, r, d) && |s0.code| <= |r.code|
  {
    assert Held(r, d) == Held(s, d);
    forall i | 0 <= i < |s0.code|
      ensures GrownAt(s0, r, i)
    {
      assert GrownAt(s0, s, i);
    }
  }

  /** The place of the value is all that changes, and it holds the same value. */
  lemma RekindOk(m: Env, f: Meaning, s0: State, s: State, d: ExpDesc, x: Option<nat>, k: Kind)
    requires Base(s0, s, d) && Sem(m, f, s0, s, d, x) && !d.k.VJMP? && !k.VJMP?
    requires forall r :: KindValue(m, s.code, k, r) == KindValue(m, s.code, d.k, r)
    ensures Base(s0, s, d.(k := k)) && Sem(m, f, s0, s, d.(k := k), x)
  {
    hide Run, Keeps, KindValue;
    var g := d.(k := k);
    assert Held(s, g) == Held(s, d);
    forall p: nat, r | Enters(s0, s, p, r)
      ensures SemAt(m, f, s0, s, g, x, p, r)
    {
      assert SemAt(m, f, s0, s, d, x, p, r);
    }
  }

  /** Emitting an instruction that loads the value into a register. */
  lemma EmitLoad(m: Env, f: Meaning, s0: State, s: State, d: ExpDesc, y: Option<nat>, i: Ins, reg: nat)
    requires Base(s0, s, d) && Sem(m, f, s0, s, d, None) && !d.k.VJMP? && Plain(i)
    requires forall r :: Effect(m, r, i) == r[reg := KindValue(m, s.code, d.k, r)]
    requires reg >= s0.freereg || y == Some(reg)
    ensures var r, g := Emit(s, i), d.(k := VNONRELOC(reg));
            Base(s0, r, g) && Sem(m, Dropped(f), s0, r, g, y) && Labelled(r) && (Above(s0, s) ==> Above(s0, r))
  {
    hide Base, Sem, Effect, Above, Labelled;
    EmitBase(s0, s, d, i, VNONRELOC(reg));
    EmitSem(m, f, s0, s, d, None, y, i, VNONRELOC(reg));
  }

  /** Where registers are nil already, at the beginning. */
  lemma NilThere(m: Env, f: Meaning, s0: State, s: State, s': State, d: ExpDesc, y: Option<nat>, reg: nat)
    requires Start(s0) && Sem(m, f, s0, s, d, None) && d.k.VNIL? && s0.jpc == [] && s.jpc == [] && s'.jpc == []
    requires |s.code| == |s'.code| == |s0.code| && Grown(s0, s) && Grown(s0, s') && Wider(s0, s, s')
    requires forall r :: EntryRegs(s0, s', r) ==> Get(r, reg) == Nil
    ensures Sem(m, Dropped(f), s0, s', d.(k := VNONRELOC(reg)), y)
  {
    hide Grown;
    var n, g := |s0.code|, d.(k := VNONRELOC(reg));
    forall p: nat, r | Enters(s0, s', p, r)
      ensures SemAt(m, Dropped(f), s0, s', g, y, p, r)
    {
      EntersBack(s0, s, s', p, r);
      EntryOk(s0, s, p);
      EntryOk(s0, s', p);
      assert SemAt(m, f, s0, s, d, None, p, r);
      EndRun(m, s.code, r);
      EndRun(m, s'.code, r);
    }
  }

  lemma EndRun(m: Env, c: seq<Ins>, r: Regs)
    requires StartOk(c, |c|)
    ensures RunAt(m, c, |c|, r) == Fall(r)
  {
  }

  /** A LOADNIL at the end of `s0` covers the register, or is made to. */
  lemma NilMerged(m: Env, f: Meaning, s0: State, s: State, d: ExpDesc, y: Option<nat>, reg: nat)
    requires Base(s0, s, d) && Sem(m, f, s0, s, d, None) && d.k.VNIL? && Settled(s0, s) && Labelled(s)
    requires var n := |s.code|;
             n > 0 && n > s.lasttarget && s.code[n - 1].LoadNil? && s.code[n - 1].a <= reg <= s.code[n - 1].b + 1
    ensures var r, g := LoadNil1(s, reg), d.(k := VNONRELOC(reg));
            Base(s0, r, g) && Sem(m, Dropped(f), s0, r, g, y) && Labelled(r)
                && (Above(s0, s) && reg >= s0.freereg ==> Above(s0, r))
  {
    hide Sem, Run;
    var n, r, g := |s.code|, LoadNil1(s, reg), d.(k := VNONRELOC(reg));
    assert GrownAt(s0, s, n - 1);
    assert Held(r, g) == Held(s, d);
    forall i | 0 <= i < |r.code|
      ensures OkAt(r.code, i)
    {
      assert OkAt(s.code, i);
    }
    forall i | 0 <= i < |s0.code|
      ensures GrownAt(s0, r, i)
    {
      assert GrownAt(s0, s, i);
    }
    NilThere(m, f, s0, s, r, d, y, reg);
  }

  lemma NilOk(m: Env, f: Meaning, s0: State, s: State, d: ExpDesc, y: Option<nat>, reg: nat)
    requires Base(s0, s, d) && Sem(m, f, s0, s, d, None) && d.k.VNIL? && Settled(s0, s) && Labelled(s)
             && (reg >= s0.freereg || y == Some(reg))
    ensures var r, g := LoadNil1(s, reg), d.(k := VNONRELOC(reg));
            Base(s0, r, g) && Sem(m, Dropped(f), s0, r, g, y) && Labelled(r)
                && (Above(s0, s) && reg >= s0.freereg ==> Above(s0, r))
  {
    hide Sem, Run;
    var n := |s.code|;
    if n > s.lasttarget && n == 0 && reg >= s.nactvar {
      assert Held(s, d.(k := VNONRELOC(reg))) == Held(s, d);
      NoElements(s0.jpc);
      NilThere(m, f, s0, s, s, d, y, reg);
    } else if n > s.lasttarget && n > 0 && s.code[n - 1].LoadNil? && s.code[n - 1].a <= reg <= s.code[n - 1].b + 1 {
      NilMerged(m, f, s0, s, d, y, reg);
    } else {
      forall r
        ensures Effect(m, r, LoadNil(reg, reg)) == r[reg := Nil]
      {
        PutOneNil(r, reg);
      }
      EmitLoad(m, f, s0, s, d, y, LoadNil(reg, reg), reg);
    }
  }

  lemma PutOneNil(r: Regs, a: nat)
    ensures PutNils(r, a, a) == r[a := Nil]
  {
  }

  lemma SemWeaken(m: Env, f: Meaning, s0: State, s: State, d: ExpDesc, y: Option<nat>)
    requires Sem(m, f, s0, s, d, None)
    ensures Sem(m, f, s0, s, d, y)
  {
    hide Run;
    forall p: nat, r | Enters(s0, s, p, r)
      ensures SemAt(m, f, s0, s, d, y, p, r)
    {
      assert SemAt(m, f, s0, s, d, None, p, r);
    }
  }

  /** A relocatable instruction is the last one: without it the code is well formed. */
  lemma CutWellFormed(c: seq<Ins>)
    requires WellFormed(c) && NoTarget(c) && |c| > 0 && Relocatable(c[|c| - 1])
    ensures WellFormed(c[..|c| - 1])
  {
    var p := c[..|c| - 1];
    forall i | 0 <= i < |p|
      ensures OkAt(p, i)
    {
      assert OkAt(c, i);
      if c[i].Jmp? && c[i].dest != NO_JUMP { assert c[i].dest < |c|; }
    }
  }

  lemma RunLast(m: Env, p: seq<Ins>, i: Ins, start: nat, r: Regs)
    requires WellFormed(p) && StartOk(p, start) && Plain(i)
    ensures start <= |p + [i]|
    ensures var out := RunAt(m, p, start, r);
            RunAt(m, p + [i], start, r) == if out.Fall? then Fall(Effect(m, out.r, i)) else out
  {
    var s := State(p, [], 0, 0, 0, []);
    EmitRun(m, s, i, start, r);
    assert Emit(s, i).code == p + [i];
  }

  /** Where runs may begin in the shorter code. */
  lemma CutStart(c: seq<Ins>, start: nat)
    requires WellFormed(c) && |c| > 0 && Relocatable(c[|c| - 1]) && StartOk(c, start) && start < |c|
    ensures StartOk(c[..|c| - 1], start)
  {
    if start > 0 { assert OkAt(c, start - 1); }
  }

  /** Giving a relocatable instruction its register. */
  lemma RelocRun(m: Env, c: seq<Ins>, reg: nat, start: nat, r: Regs)
    requires WellFormed(c) && NoTarget(c) && |c| > 0 && Relocatable(c[|c| - 1]) && start < |c| && StartOk(c, start)
    ensures var n := |c| - 1;
            var out := RunAt(m, c, start, r);
            RunAt(m, c[n := SetTarget(c[n], reg)], start, r) ==
              if out.Fall? then Fall(out.r[reg := KindValue(m, c, VRELOCABLE(n), out.r)]) else out
  {
    var n := |c| - 1;
    var p := c[..n];
    CutWellFormed(c);
    CutStart(c, start);
    assert c == p + [c[n]] && c[n := SetTarget(c[n], reg)] == p + [SetTarget(c[n], reg)];
    RunLast(m, p, c[n], start, r);
    RunLast(m, p, SetTarget(c[n], reg), start, r);
  }

  lemma RelocBase(s0: State, s: State, d: ExpDesc, reg: nat)
    requires Base(s0, s, d) && d.k.VRELOCABLE? && KindOk(s, d.k) && KindNew(s0, d.k)
    ensures var r := LoadTo(s, d.k, reg);
            && Base(s0, r, d.(k := VNONRELOC(reg))) && NoTarget(r.code) && Labelled(r) && Wider(s0, s, r)
            && |r.code| == |s.code| && (Above(s0, s) ==> Above(s0, r))
  {
    var r, g := LoadTo(s, d.k, reg), d.(k := VNONRELOC(reg));
    assert Held(r, g) == Held(s, d);
    forall i | 0 <= i < |r.code|
      ensures OkAt(r.code, i)
    {
      assert OkAt(s.code, i);
      if s.code[i].Jmp? && s.code[i].dest != NO_JUMP { assert s.code[i].dest < |s.code|; }
    }
    forall i | 0 <= i < |s0.code|
      ensures GrownAt(s0, r, i)
    {
      assert GrownAt(s0, s, i);
    }
  }

  lemma RelocOk(m: Env, f: Meaning, s0: State, s: State, d: ExpDesc, y: Option<nat>, reg: nat)
    requires Base(s0, s, d) && d.k.VRELOCABLE? && KindOk(s, d.k) && KindNew(s0, d.k) && Sem(m, f, s0, s, d, None)
    requires reg >= s0.freereg || y == Some(reg)
    ensures var r, g := LoadTo(s, d.k, reg), d.(k := VNONRELOC(reg));
            Base(s0, r, g) && Sem(m, Dropped(f), s0, r, g, y) && Labelled(r) && (Above(s0, s) ==> Above(s0, r))
  {
    hide LoadTo, SemAt, Enters, Base;
    RelocBase(s0, s, d, reg);
    forall p: nat, r | Enters(s0, LoadTo(s, d.k, reg), p, r)
      ensures SemAt(m, Dropped(f), s0, LoadTo(s, d.k, reg), d.(k := VNONRELOC(reg)), y, p, r)
    {
      RelocSemAt(m, f, s0, s, d, y, reg, p, r);
    }
  }

  lemma RelocSemAt(m: Env, f: Meaning, s0: State, s: State, d: ExpDesc, y: Option<nat>, reg: nat, p: nat, r: Regs)
    requires Base(s0, s, d) && d.k.VRELOCABLE? && KindOk(s, d.k) && KindNew(s0, d.k) && Sem(m, f, s0, s, d, None)
    requires Enters(s0, LoadTo(s, d.k, reg), p, r) && (reg >= s0.freereg || y == Some(reg))
    ensures SemAt(m, Dropped(f), s0, LoadTo(s, d.k, reg), d.(k := VNONRELOC(reg)), y, p, r)
  {
    hide *;
    BaseParts(s0, s, d);
    GrownLength(s0, s);
    RelocBase(s0, s, d, reg);
    EntersBack(s0, s, LoadTo(s, d.k, reg), p, r);
    EntersAt(s0, s, p, r);
    EntryOk(s0, s, p);
    RelocParts(s0, s, d.k);
    RelocRun(m, s.code, reg, p, r);
    SemParts(m, f, s0, s, d, None, p, r);
    RelocOut(m, s, d, reg, s0.freereg, y, r, RunAt(m, s.code, p, r), f(r, EntryTag(s0, p, r)));
    LoadToReloc(s, d.k, reg);
    DroppedIs(f, r, EntryTag(s0, p, r));
    SemFrom(m, Dropped(f), s0, LoadTo(s, d.k, reg), d.(k := VNONRELOC(reg)), y, p, r);
  }

  lemma RelocParts(s0: State, s: State, k: Kind)
    requires k.VRELOCABLE? && KindOk(s, k) && KindNew(s0, k)
    ensures k.pc + 1 == |s.code| && k.pc >= |s0.code| && Relocatable(s.code[k.pc]) && s.jpc == [] && NoTarget(s.code)
  {
  }

  lemma LoadToReloc(s: State, k: Kind, reg: nat)
    requires k.VRELOCABLE? && k.pc + 1 == |s.code|
    ensures LoadTo(s, k, reg) == s.(code := s.code[|s.code| - 1 := SetTarget(s.code[|s.code| - 1], reg)])
  {
  }

  lemma RelocOut(m: Env, s: State, d: ExpDesc, reg: nat, n: nat, y: Option<nat>, r: Regs, out: Out, o: Outcome)
    requires Lists(s, d) && d.k.VRELOCABLE? && d.k.pc + 1 == |s.code| && Relocatable(s.code[d.k.pc]) && s.jpc == []
    requires (reg >= n || y == Some(reg)) && Keeps(n, None, r, out.r) && OutOk(m, s, d, o, out)
    ensures var q := if out.Fall? then Fall(out.r[reg := KindValue(m, s.code, d.k, out.r)]) else out;
            Keeps(n, y, r, q.r) && OutOk(m, LoadTo(s, d.k, reg), d.(k := VNONRELOC(reg)), Drop(o), q)
  {
    HeldParts(s, d);
    if out.Exit? {
      assert out.j in d.t + d.f;
      assert Pending(s.code, out.j);
    }
  }

  /** Loading emits code, except for a value that is in the register already. */
  function LoadedOf(k: Kind, reg: nat, f: Meaning): Meaning { if k == VNONRELOC(reg) then f else Dropped(f) }

  /** `discharge2reg` on an expression whose value is somewhere. */
  lemma LoadOk(m: Env, f: Meaning, s0: State, s: State, d: ExpDesc, y: Option<nat>, reg: nat)
    requires Base(s0, s, d) && KindOk(s, d.k) && KindNew(s0, d.k) && Settled(s0, s) && Labelled(s)
             && Sem(m, f, s0, s, d, None)
    requires !d.k.VJMP? && !d.k.VLOCAL? && !d.k.VUPVAL? && (reg >= s0.freereg || y == Some(reg))
    requires LoadTo(s, d.k, reg).consts <= m.k
    ensures var r, g := LoadTo(s, d.k, reg), d.(k := VNONRELOC(reg));
            && Base(s0, r, g) && Sem(m, LoadedOf(d.k, reg, f), s0, r, g, y) && Labelled(r)
            && (Above(s0, s) && reg >= s0.freereg ==> Above(s0, r))
            && r.freereg == s.freereg && r.nactvar == s.nactvar && s.consts <= r.consts && Inherits(s0, r)
  {
    hide Base, Sem, KindOk, KindNew, Emit, Above, Labelled, Settled, Dropped, Inherits;
    LoadInherits(s0, s, d, reg);
    match d.k
    case VNIL => NilOk(m, f, s0, s, d, y, reg); EmitOther(s, LoadNil(reg, reg));
    case VFALSE =>
      EmitOther(s, LoadBool(reg, false, false));
      EmitLoad(m, f, s0, s, d, y, LoadBool(reg, false, false), reg);
    case VTRUE =>
      EmitOther(s, LoadBool(reg, true, false));
      EmitLoad(m, f, s0, s, d, y, LoadBool(reg, true, false), reg);
    case VK(i) => EmitOther(s, LoadK(reg, i)); EmitLoad(m, f, s0, s, d, y, LoadK(reg, i), reg);
    case VKNUM(v) => NumberOk(m, f, s0, s, d, y, reg);
    case VRELOCABLE(pc) =>
      RelocOk(m, f, s0, s, d, y, reg);
      RelocParts(s0, s, d.k);
    case VNONRELOC(a) =>
      if a != reg {
        EmitOther(s, Move(reg, a));
        EmitLoad(m, f, s0, s, d, y, Move(reg, a), reg);
      } else {
        assert d.(k := VNONRELOC(reg)) == d;
        SemWeaken(m, f, s0, s, d, y);
      }
  }

  lemma LoadInherits(s0: State, s: State, d: ExpDesc, reg: nat)
    requires Base(s0, s, d) && KindOk(s, d.k) && KindNew(s0, d.k) && Settled(s0, s)
    ensures Inherits(s0, LoadTo(s, d.k, reg))
  {
    hide WellFormed, PatchList;
  }

  lemma NumberOk(m: Env, f: Meaning, s0: State, s: State, d: ExpDesc, y: Option<nat>, reg: nat)
    requires Base(s0, s, d) && Sem(m, f, s0, s, d, None) && d.k.VKNUM? && (reg >= s0.freereg || y == Some(reg))
    requires LoadTo(s, d.k, reg).consts <= m.k
    ensures var r, g := LoadTo(s, d.k, reg), d.(k := VNONRELOC(reg));
            && Base(s0, r, g) && Sem(m, Dropped(f), s0, r, g, y) && Labelled(r) && (Above(s0, s) ==> Above(s0, r))
            && r.freereg == s.freereg && r.nactvar == s.nactvar && s.consts <= r.consts
  {
    hide Base, Sem, Emit, Above, Labelled, AddK, KOf;
    var v := d.k.v;
    ConstsOk(m, f, s0, s, d, None, v);
    AddKIs(s, v);
    EmitOther(AddK(s, v), LoadK(reg, KOf(s, v)));
    EmitLoad(m, f, s0, AddK(s, v), d, y, LoadK(reg, KOf(s, v)), reg);
    SameAbove(s0, s, AddK(s, v));
  }

  lemma AddKIs(s: State, v: V)
    ensures var r := AddK(s, v); r == s.(consts := r.consts)
  {
  }

  lemma SameAbove(s0: State, s: State, r: State)
    requires r.code == s.code
    ensures Above(s0, r) <==> Above(s0, s)
  {
  }

  /** What emitting does not touch. */
  lemma EmitOther(s: State, i: Ins)
    ensures var r := Emit(s, i);
            && r.freereg == s.freereg && r.nactvar == s.nactvar && r.consts == s.consts && r.lasttarget == s.lasttarget
            && |r.code| == |s.code| + 1 && r.code[|s.code|] == i && (!i.LoadNil? ==> Sealed(r))
  {
  }

  function AnyRegOf(k: Kind, f: Meaning): Meaning { if k.VNONRELOC? then f else Dropped(f) }

  /** The value ends up in the register of the expression, or in the first free one. */
  lemma AnyRegOk(m: Env, f: Meaning, s0: State, s: State, d: ExpDesc)
    requires Ready(s0, s, d) && Sem(m, f, s0, s, d, None) && !d.k.VJMP? && !d.k.VLOCAL? && !d.k.VUPVAL?
    requires Discharge2AnyReg(s, d).0.consts <= m.k
    ensures var (r, g) := Discharge2AnyReg(s, d);
            && Base(s0, r, g) && Sem(m, AnyRegOf(d.k, f), s0, r, g, None) && Above(s0, r)
            && g.k.VNONRELOC? && g.t == d.t && g.f == d.f && s.consts <= r.consts
            && FreeExp(r, g).freereg == s0.freereg
  {
    hide Base, Sem, LoadTo, Above, Labelled, Settled, KindNew, Dropped;
    ReadyParts(s0, s, d);
    if !d.k.VNONRELOC? {
      var q := Reserve(s);
      SameCodeOk(m, f, s0, s, q, d, None);
      ReservedOk(s0, s, d.k);
      LoadOk(m, f, s0, q, d, None, s.freereg);
    }
  }

  lemma ReservedOk(s0: State, s: State, k: Kind)
    ensures Settled(s0, s) ==> Settled(s0, Reserve(s))
    ensures Labelled(s) ==> Labelled(Reserve(s))
    ensures Above(s0, s) ==> Above(s0, Reserve(s))
    ensures KindOk(s, k) && !k.VNONRELOC? ==> KindOk(Reserve(s), k)
  {
  }
}
