/** The code generator in place: methods that change the code array and thread the jump lists through it. */
module CodeGenerator {
  import opened Common
  import opened JumpCode
  import opened CodeGenRun
  import opened CodeGenSem
  import opened JumpLists
  import CodeGen

  type State = CodeGen.State
  type Kind = CodeGen.Kind
  type ExpDesc = CodeGen.ExpDesc

  /** `expdesc`: the lists are given by their first jumps. */
  datatype Desc = Desc(k: Kind, t: int, f: int)

  /** The descriptor `d` stands for `e`: its lists are threaded through the code, apart from each other. */
  ghost predicate HoldsIn(c: seq<Ins>, waiting: set<nat>, jpc: int, here: seq<nat>, d: Desc, e: ExpDesc) {
    && Waits(c, waiting) && Chain(c, jpc, here) && d.k == e.k && Chain(c, d.t, e.t) && Chain(c, d.f, e.f)
    && (e.k.VJMP? ==> Chain(c, e.k.jump, [e.k.jump]))
    && Distinct(here + e.t + e.f + JumpOf(e.k)) && Within(here + e.t + e.f + JumpOf(e.k), waiting)
  }

  lemma HoldsParts(c: seq<Ins>, w: set<nat>, jpc: int, here: seq<nat>, d: Desc, e: ExpDesc)
    requires HoldsIn(c, w, jpc, here, d, e)
    ensures Waits(c, w) && Chain(c, jpc, here) && d.k == e.k && Chain(c, d.t, e.t) && Chain(c, d.f, e.f)
    ensures Within(here, w) && Within(e.t, w) && Within(e.f, w) && Within(JumpOf(e.k), w)
            && (e.k.VJMP? ==> Chain(c, e.k.jump, [e.k.jump]))
    ensures Distinct(here + e.t) && Distinct(here + e.f) && Distinct(here + e.t + e.f) && Distinct(e.t + e.f)
            && Distinct(e.t + e.f + JumpOf(e.k))
    ensures forall j :: j in e.t || j in e.f || j in JumpOf(e.k) ==> j !in here
  {
    var t, f, x := e.t, e.f, JumpOf(e.k);
    assert here + t + f + x == here + (t + f + x);
    DistinctParts(here, t + f + x);
    DistinctParts(here + t + f, x);
    DistinctParts(here + t, f);
    DistinctParts(t + f, x);
    DistinctParts(t, f);
    DistinctParts(here, t);
    assert forall j :: j in t || j in f ==> j in t + f;
    assert forall j :: j in t || j in f || j in x ==> j in t + f + x;
    DistinctJoin(here, f);
    assert forall j :: j in here || j in t || j in f || j in x ==> j in here + t + f + x;
  }

  lemma DistinctJoin(a: seq<nat>, b: seq<nat>)
    requires Distinct(a) && Distinct(b) && forall x :: x in a ==> x !in b
    ensures Distinct(a + b)
  {
    var u := a + b;
    forall i, j | 0 <= i < j < |u|
      ensures u[i] != u[j]
    {
      if i < |a| <= j { assert u[i] in a && u[j] in b; }
    }
  }

  /** Once the jumps to here have their target, the lists of the expression are still there. */
  lemma Survive(c: seq<Ins>, w: set<nat>, jpc: int, here: seq<nat>, c': seq<Ins>, w': set<nat>, d: Desc, e: ExpDesc)
    requires HoldsIn(c, w, jpc, here, d, e) && |c| <= |c'| && Waits(c', w')
    requires forall j :: j in w && j !in here ==> j in w' && j < |c| && j < |c'| && c'[j] == c[j]
    ensures HoldsIn(c', w', NO_JUMP, [], d, e)
  {
    HoldsParts(c, w, jpc, here, d, e);
    ChainKept(c, c', d.t, e.t);
    ChainKept(c, c', d.f, e.f);
    if e.k.VJMP? { ChainKept(c, c', e.k.jump, [e.k.jump]); }
    assert [] + e.t + e.f + JumpOf(e.k) == e.t + e.f + JumpOf(e.k);
  }

  /** Where no waiting jump changes, nothing does. */
  lemma HoldsStill(c: seq<Ins>, w: set<nat>, jpc: int, here: seq<nat>, c': seq<Ins>, d: Desc, e: ExpDesc)
    requires HoldsIn(c, w, jpc, here, d, e) && |c| <= |c'|
    requires forall j :: j in w ==> j < |c| && j < |c'| && c'[j] == c[j]
    ensures HoldsIn(c', w, jpc, here, d, e)
  {
    HoldsParts(c, w, jpc, here, d, e);
    ChainKept(c, c', jpc, here);
    ChainKept(c, c', d.t, e.t);
    ChainKept(c, c', d.f, e.f);
    if e.k.VJMP? { ChainKept(c, c', e.k.jump, [e.k.jump]); }
  }

  /** A value instead of another one. */
  lemma Rekind(c: seq<Ins>, w: set<nat>, jpc: int, here: seq<nat>, d: Desc, e: ExpDesc, k: Kind)
    requires HoldsIn(c, w, jpc, here, d, e) && !k.VJMP?
    ensures HoldsIn(c, w, jpc, here, d.(k := k), e.(k := k))
  {
    HoldsParts(c, w, jpc, here, d, e);
    assert here + e.t + e.f + [] == here + e.t + e.f;
  }

  ghost function Elems(l: seq<nat>): set<nat> { set j | j in l }

  class FuncState {
    var code: seq<Ins>
    var jpc: int
    var lasttarget: int
    var freereg: nat
    var nactvar: nat
    var consts: seq<V>
    /** The jumps without a target, and those of them that wait for the next instruction. */
    ghost var waiting: set<nat>
    ghost var here: seq<nat>

    ghost predicate Valid()
      reads this
    {
      Waits(code, waiting) && Chain(code, jpc, here) && Within(here, waiting)
    }

    ghost function View(): State
      reads this
    {
      CodeGen.State(Abs(code, waiting), here, lasttarget, freereg, nactvar, consts)
    }

    /** The waiting jumps outside `l` still wait, in their lists. */
    twostate predicate Keeps(l: seq<nat>)
      reads this
    {
      && |code| >= |old(code)|
      && forall j :: j in old(waiting) && j !in l ==>
                       j in waiting && j < |code| && j < |old(code)| && code[j] == old(code)[j]
    }

    constructor (active: nat)
      ensures Valid() && View() == CodeGen.State([], [], -1, active, active, [])
    {
      code, jpc, lasttarget, freereg, nactvar, consts := [], NO_JUMP, -1, active, active, [];
      waiting, here := {}, [];
    }

    // Jump lists

    /** `fixjump`. */
    method FixJump(pc: nat, dest: int)
      requires pc < |code| && dest != NO_JUMP
      modifies `code
      ensures code == old(code)[pc := Jmp(dest - (pc + 1))]
    {
      code := code[pc := Jmp(dest - (pc + 1))];
    }

    /** `luaK_concat`: the second list is linked to the last jump of the first. */
    method Concat(l1: int, l2: int, ghost a: seq<nat>, ghost b: seq<nat>) returns (l: int)
      requires Waits(code, waiting) && Chain(code, l1, a) && Chain(code, l2, b) && Within(a + b, waiting)
               && Distinct(a + b)
      modifies `code
      ensures Waits(code, waiting) && Chain(code, l, a + b) && Abs(code, waiting) == old(Abs(code, waiting))
      ensures |code| == |old(code)| && forall j :: 0 <= j < |code| && j !in a ==> code[j] == old(code)[j]
    {
      if l2 == NO_JUMP {
        assert a + b == a;
        return l1;
      } else if l1 == NO_JUMP {
        assert a + b == b;
        return l2;
      }
      var list := l1;
      ghost var k := 0;
      ListElement(code, a, 0);
      var next := GetJump(code, list);
      while next != NO_JUMP
        invariant code == old(code)
        invariant 0 <= k < |a| && list == a[k] && a[k] < |code| && code[a[k]].Jmp? && next == Nth(a, k + 1)
        decreases |a| - k
      {
        k := k + 1;
        ListElement(code, a, k);
        list := next;
        next := GetJump(code, list);
      }
      ConcatChain(code, a, b);
      assert a[k] in a + b;
      LinkAbs(code, waiting, list, l2);
      FixJump(list, l2);
      l := l1;
    }

    /** `need_value`: some jump of the list has no TESTSET before it. */
    method NeedValue(first: int, ghost l: seq<nat>) returns (r: bool)
      requires Chain(code, first, l)
      ensures r == CodeGen.NeedValue(Abs(code, waiting), l)
    {
      var list := first;
      ghost var k := 0;
      while list != NO_JUMP
        invariant 0 <= k <= |l| && list == Nth(l, k)
        invariant forall j :: 0 <= j < k ==> Carries(code, l[j])
        decreases |l| - k
      {
        ListElement(code, l, k);
        AbsCarries(code, waiting, list);
        if !Carries(code, list) {
          assert l[k] in l;
          return true;
        }
        list := GetJump(code, list);
        k := k + 1;
      }
      forall j | j in l
        ensures Carries(Abs(code, waiting), j)
      {
        AbsCarries(code, waiting, j);
      }
      r := false;
    }

    /** `patchtestreg`: a TESTSET before the jump gets its register, or becomes a TEST. */
    method PatchTestReg(node: nat, reg: Option<nat>) returns (r: bool)
      modifies `code
      ensures r == old(Carries(code, node))
      ensures code == if r then old(code)[node - 1 := Control(old(code)[node - 1], reg)] else old(code)
    {
      if !Carries(code, node) { return false; }
      var i := code[node - 1];
      code := code[node - 1 := if reg.Some? && reg.value != i.b then TestSet(reg, i.b, i.c) else Test(i.b, i.c)];
      r := true;
    }

    /** `removevalues`. */
    method RemoveValues(first: int, ghost l: seq<nat>)
      requires Waits(code, waiting) && Chain(code, first, l) && Within(l, waiting)
      modifies `code
      ensures Waits(code, waiting) && Abs(code, waiting) == CodeGen.RemoveValues(old(Abs(code, waiting)), l)
      ensures |code| == |old(code)| && forall j :: j in waiting ==> code[j] == old(code)[j]
      ensures forall j :: 0 <= j < |code| ==> (code[j].Jmp? <==> old(code)[j].Jmp?)
    {
      var list := first;
      ghost var rest := l;
      while list != NO_JUMP
        invariant Waits(code, waiting) && Chain(code, list, rest) && Within(rest, waiting) && |code| == |old(code)|
        invariant forall j :: 0 <= j < |code| ==> (code[j].Jmp? <==> old(code)[j].Jmp?)
        invariant CodeGen.RemoveValues(Abs(code, waiting), rest) == CodeGen.RemoveValues(old(Abs(code, waiting)), l)
        invariant forall j :: j in waiting ==> code[j] == old(code)[j]
        decreases |rest|
      {
        ChainTail(code, list, rest);
        RemoveStep(code, waiting, list);
        ghost var before := code;
        var done := PatchTestReg(list, None);
        ChainKept(before, code, GetJump(before, list), rest[1..]);
        list := GetJump(code, list);
        rest := rest[1..];
      }
    }

    /** `patchlistaux`: jumps that carry a value go to one place, with the value in `reg`, and the others to another. */
    method PatchListAux(first: int, vtarget: nat, reg: Option<nat>, dtarget: nat, ghost l: seq<nat>)
      requires Waits(code, waiting) && Chain(code, first, l) && Within(l, waiting)
      modifies `code, `waiting
      ensures Waits(code, waiting) && waiting == old(waiting) - Elems(l)
      ensures Abs(code, waiting) == CodeGen.PatchList(old(Abs(code, waiting)), l, vtarget, reg, dtarget)
      ensures |code| == |old(code)| && forall j :: j in waiting ==> code[j] == old(code)[j]
    {
      hide Abs, CodeGen.PatchOne, Distinct;
      ChainEnds(code, first, l);
      var list := first;
      ghost var rest := l;
      while list != NO_JUMP
        invariant Waits(code, waiting) && Chain(code, list, rest) && Within(rest, waiting) && Distinct(rest)
        invariant |code| == |old(code)| && waiting - Elems(rest) == old(waiting) - Elems(l)
        invariant CodeGen.PatchList(Abs(code, waiting), rest, vtarget, reg, dtarget)
               == CodeGen.PatchList(old(Abs(code, waiting)), l, vtarget, reg, dtarget)
        invariant forall j :: j in waiting ==> j in old(waiting) && code[j] == old(code)[j]
        decreases |rest|
      {
        ChainTail(code, list, rest);
        ghost var before, w := code, waiting;
        var next := GetJump(code, list);
        var patched := PatchTestReg(list, reg);
        if patched {
          FixJump(list, vtarget);
        } else {
          FixJump(list, dtarget);
        }
        PatchStep(before, code, w, rest, vtarget, reg, dtarget);
        ElemsTail(rest);
        waiting := waiting - {rest[0]};
        list := next;
        rest := rest[1..];
      }
    }

    // Emitting code

    /** `dischargejpc`. */
    method DischargeJpc()
      requires Valid()
      modifies `code, `waiting, `jpc, `here
      ensures Valid() && here == [] && |code| == |old(code)| && Keeps(old(here))
              && waiting == old(waiting) - Elems(old(here))
      ensures View() == CodeGen.DischargeJpc(old(View()))
    {
      PatchListAux(jpc, |code|, None, |code|, here);
      jpc, here := NO_JUMP, [];
    }

    /** `luaK_code`. */
    method Code(i: Ins)
      requires Valid() && !i.Jmp?
      modifies `code, `waiting, `jpc, `here
      ensures Valid() && here == [] && |code| == |old(code)| + 1 && Emits()
      ensures View() == CodeGen.Emit(old(View()), i)
    {
      DischargeJpc();
      AbsAppend(code, waiting, i);
      code := code + [i];
    }

    /** `luaK_jump`: the jumps to here are put on hold behind the new one. */
    method Jump() returns (j: nat, ghost l: seq<nat>)
      requires Valid()
      modifies `code, `waiting, `jpc, `here
      ensures Valid() && here == [] && |code| == |old(code)| + 1 && Keeps(old(here)) && j == |old(code)|
      ensures View() == CodeGen.Jump(old(View())) && l == CodeGen.JumpsOf(old(View()))
      ensures Chain(code, j, l) && Within(l, waiting)
    {
      var held := jpc;
      ghost var before := here;
      jpc, here := NO_JUMP, [];
      AbsJump(code, waiting, held, before);
      j := |code|;
      code := code + [Jmp(NO_JUMP)];
      waiting := waiting + {j};
      var r := Concat(j, held, [j], before);
      l := [j] + before;
    }

    /** `condjump`: a test and its jump. */
    method CondJump(i: Ins) returns (j: nat)
      requires Valid() && !i.Jmp?
      modifies `code, `waiting, `jpc, `here
      ensures Valid() && here == [] && |code| == |old(code)| + 2 && Keeps(old(here)) && j == |old(code)| + 1
      ensures View() == CodeGen.CondJump(old(View()), i)
      ensures Chain(code, j, [j]) && j in waiting
    {
      Code(i);
      ghost var l;
      j, l := Jump();
      assert l == [j];
    }

    /** `luaK_getlabel`. */
    method GetLabel()
      modifies `lasttarget
      ensures lasttarget == |code|
    {
      lasttarget := |code|;
    }

    /** `luaK_patchtohere`. */
    method PatchToHere(list: int, ghost l: seq<nat>)
      requires Valid() && Chain(code, list, l) && Within(l, waiting) && Distinct(here + l)
      modifies `code, `jpc, `here, `lasttarget
      ensures Valid() && here == old(here) + l && |code| == |old(code)| && Keeps(old(here))
      ensures View() == CodeGen.PatchToHere(old(View()), l)
    {
      GetLabel();
      jpc := Concat(jpc, list, here, l);
      here := here + l;
    }

    /** `invertjump`. */
    method InvertJump(j: nat)
      requires Valid()
      modifies `code
      ensures Valid() && Keeps([]) && |code| == |old(code)|
      ensures View() == old(View()).(code := CodeGen.InvertJump(old(View()).code, j))
    {
      if 1 <= j <= |code| && code[j - 1].Compare? {
        ghost var before := code;
        code := code[j - 1 := code[j - 1].(cond := !code[j - 1].cond)];
        AbsInvert(before, waiting, j);
        ChainKept(before, code, jpc, here);
      }
    }

    // Values

    ghost predicate Holds(d: Desc, e: ExpDesc)
      reads this
    {
      HoldsIn(code, waiting, jpc, here, d, e)
    }

    twostate predicate Moves(l: seq<nat>, l': seq<nat>)
      reads this
    {
      Moved(old(code), old(waiting), l, code, waiting, l')
    }

    /** Either the jumps to here have their target now, or nothing was emitted. */
    twostate predicate Emits()
      reads this
    {
      Keeps(old(here)) && ((here == [] && jpc == NO_JUMP)
                           || (here == old(here) && jpc == old(jpc) && Keeps([]) && waiting == old(waiting)))
    }

    /** `luaK_dischargevars`. */
    method DischargeVars(d: Desc, ghost e: ExpDesc) returns (d': Desc, ghost e': ExpDesc)
      requires Holds(d, e)
      modifies `code, `waiting, `jpc, `here
      ensures Holds(d', e') && (View(), e') == CodeGen.DischargeVars(old(View()), e)
      ensures Moves(old(here), here) && d'.t == d.t && d'.f == d.f && (old(AtEnd(code, d.k)) ==> AtEnd(code, d'.k))
    {
      d', e' := d, e;
      if d.k.VLOCAL? {
        Rekind(code, waiting, jpc, here, d, e, CodeGen.VNONRELOC(d.k.local));
        d', e' := d.(k := CodeGen.VNONRELOC(d.k.local)), e.(k := CodeGen.VNONRELOC(d.k.local));
      } else if d.k.VUPVAL? {
        ghost var c, w, j, h := code, waiting, jpc, here;
        HoldsParts(c, w, j, h, d, e);
        Code(GetUpval(None, d.k.u));
        Survive(c, w, j, h, code, waiting, d, e);
        Rekind(code, waiting, jpc, here, d, e, CodeGen.VRELOCABLE(|code| - 1));
        d', e' := d.(k := CodeGen.VRELOCABLE(|code| - 1)), e.(k := CodeGen.VRELOCABLE(|code| - 1));
      }
    }

    /** `luaK_nil` for one register. */
    method LoadNil(reg: nat)
      requires Valid()
      modifies `code, `waiting, `jpc, `here
      ensures Valid() && Emits() && View() == CodeGen.LoadNil1(old(View()), reg)
    {
      if |code| > lasttarget {
        if |code| == 0 {
          if reg >= nactvar { return; }
        } else {
          var previous := code[|code| - 1];
          if previous.LoadNil? && previous.a <= reg <= previous.b + 1 {
            if reg > previous.b {
              SetWord(|code| - 1, JumpCode.LoadNil(previous.a, reg));
            }
            return;
          }
        }
      }
      Code(JumpCode.LoadNil(reg, reg));
    }

    /** An instruction that is no jump is replaced by another. */
    method SetWord(i: nat, ins: Ins)
      requires Valid() && i < |code| && !code[i].Jmp? && !ins.Jmp?
      modifies `code
      ensures Valid() && Emits() && code == old(code)[i := ins]
      ensures View() == old(View()).(code := old(View()).code[i := ins])
    {
      ghost var c := code;
      code := code[i := ins];
      AbsSet(c, waiting, i, ins);
      ChainKept(c, code, jpc, here);
    }

    /** `discharge2reg` on what `luaK_dischargevars` left. */
    method LoadTo(k: Kind, reg: nat)
      requires Valid()
      modifies `code, `waiting, `jpc, `here, `consts
      ensures Valid() && Emits() && View() == CodeGen.LoadTo(old(View()), k, reg)
    {
      match k
      case VNIL => LoadNil(reg);
      case VFALSE => Code(LoadBool(reg, false, false));
      case VTRUE => Code(LoadBool(reg, true, false));
      case VK(i) => Code(LoadK(reg, i));
      case VKNUM(v) =>
        var i := AddK(v);
        Code(LoadK(reg, i));
      case VRELOCABLE(pc) =>
        if pc < |code| && !code[pc].Jmp? {
          SetWord(pc, CodeGen.SetTarget(code[pc], reg));
        }
      case VNONRELOC(r) =>
        if r != reg { Code(Move(reg, r)); }
      case _ =>
    }

    /** `addk`. */
    method AddK(v: V) returns (k: nat)
      modifies `consts
      ensures consts == CodeGen.AddK(old(View()), v).consts && k == CodeGen.KOf(old(View()), v)
    {
      if v in consts {
        return CodeGen.IndexOfConst(consts, v);
      }
      k := |consts|;
      consts := consts + [v];
    }

    /** `discharge2reg`. */
    method Discharge2Reg(d: Desc, ghost e: ExpDesc, reg: nat) returns (d': Desc, ghost e': ExpDesc)
      requires Holds(d, e)
      modifies `code, `waiting, `jpc, `here, `consts
      ensures Holds(d', e') && (View(), e') == CodeGen.Discharge2Reg(old(View()), e, reg)
      ensures Moves(old(here), here) && d'.t == d.t && d'.f == d.f
    {
      hide CodeGen.LoadTo, HoldsIn, CodeGen.DischargeVars;
      d', e' := DischargeVars(d, e);
      ghost var c, w, j, h := code, waiting, jpc, here;
      HoldsParts(c, w, j, h, d', e');
      LoadTo(d'.k, reg);
      LoadedHolds(c, w, j, h, code, waiting, jpc, here, d', e');
      if !d'.k.VJMP? {
        Rekind(code, waiting, jpc, here, d', e', CodeGen.VNONRELOC(reg));
        d', e' := d'.(k := CodeGen.VNONRELOC(reg)), e'.(k := CodeGen.VNONRELOC(reg));
      }
    }

    /** `discharge2anyreg`. */
    method Discharge2AnyReg(d: Desc, ghost e: ExpDesc) returns (d': Desc, ghost e': ExpDesc)
      requires Holds(d, e)
      modifies `code, `waiting, `jpc, `here, `consts, `freereg
      ensures Holds(d', e') && (View(), e') == CodeGen.Discharge2AnyReg(old(View()), e)
      ensures Moves(old(here), here) && d'.t == d.t && d'.f == d.f
    {
      hide CodeGen.Discharge2Reg, HoldsIn;
      HoldsParts(code, waiting, jpc, here, d, e);
      if d.k.VNONRELOC? { return d, e; }
      freereg := freereg + 1;
      d', e' := Discharge2Reg(d, e, freereg - 1);
    }

    /** `freeexp`. */
    method FreeExp(d: Desc)
      modifies `freereg
      ensures forall e: ExpDesc :: e.k == d.k ==> View() == CodeGen.FreeExp(old(View()), e)
    {
      if d.k.VNONRELOC? && d.k.reg >= nactvar && freereg > 0 {
        freereg := freereg - 1;
      }
    }

    /** The loads for jumps that carry no value; what falls through jumps over them. */
    method LoadBools(k: Kind, reg: nat) returns (pf: nat, pt: nat)
      requires Valid()
      modifies `code, `waiting, `jpc, `here, `lasttarget
      ensures Valid() && Keeps(old(here)) && forall j :: j in here ==> j in old(here) || j >= |old(code)|
      ensures View() == CodeGen.LoadBools(old(View()), k, reg)
      ensures pt == pf + 1 && pf == |old(code)| + (if k.VJMP? then 0 else 1)
    {
      hide Abs, Distinct, Chain, Waits;
      var fj := NO_JUMP;
      ghost var l: seq<nat> := [];
      ChainEmpty(code);
      if !k.VJMP? {
        fj, l := Jump();
      }
      pf := |code|;
      GetLabel();
      ghost var c, w := code, waiting;
      ChainEnds(code, fj, l);
      Code(LoadBool(reg, false, true));
      pt := |code|;
      GetLabel();
      Code(LoadBool(reg, true, false));
      ChainKept(c, code, fj, l);
      assert [] + l == l;
      PatchToHere(fj, l);
    }

    /** The end of `exp2reg`: both lists are patched, and the value is in the register. */
    method PatchBoth(d: Desc, ghost e: ExpDesc, reg: nat, pf: nat)
      requires Valid() && Chain(code, d.t, e.t) && Chain(code, d.f, e.f) && Within(e.t, waiting) && Within(e.f, waiting)
      requires Distinct(e.t + e.f) && forall j :: j in e.t || j in e.f ==> j !in here
      modifies `code, `waiting
      ensures Valid() && Keeps(e.t + e.f) && |code| == |old(code)|
      ensures View() == old(View()).(code :=
                CodeGen.PatchList(CodeGen.PatchList(old(View()).code, e.f, |old(code)|, Some(reg), pf), e.t,
                                  |old(code)|, Some(reg), pf + 1))
    {
      hide CodeGen.PatchList;
      ghost var c, w := code, waiting;
      DistinctParts(e.t, e.f);
      PatchListAux(d.f, |code|, Some(reg), pf, e.f);
      ChainKept(c, code, d.t, e.t);
      PatchListAux(d.t, |code|, Some(reg), pf + 1, e.t);
      ChainKept(c, code, jpc, here);
    }

    /** The part of `exp2reg` that is needed when there are jumps. */
    method LandJumps(d: Desc, ghost e: ExpDesc, reg: nat)
      requires Valid() && d.k == e.k && Chain(code, d.t, e.t) && Chain(code, d.f, e.f) && Within(e.t, waiting)
               && Within(e.f, waiting)
      requires Distinct(e.t + e.f) && forall j :: j in e.t || j in e.f ==> j !in here
      modifies `code, `waiting, `jpc, `here, `lasttarget
      ensures Valid() && Moves(old(here) + e.t + e.f, here) && View() == LandedJumps(old(View()), e, reg)
    {
      hide CodeGen.LoadBools, CodeGen.PatchList, CodeGen.NeedValue, Chain, Abs, Distinct, Waits;
      var pf := |code| + if d.k.VJMP? then 0 else 1;
      var need := NeedValue(d.t, e.t);
      if !need { need := NeedValue(d.f, e.f); }
      if need {
        ghost var c := code;
        var q, r := LoadBools(d.k, reg);
        ChainKept(c, code, d.t, e.t);
        ChainKept(c, code, d.f, e.f);
      }
      GetLabel();
      PatchBoth(d, e, reg, pf);
    }

    /** `exp2reg`: the value of the whole expression ends up in the register. */
    method Exp2Reg(d: Desc, ghost e: ExpDesc, reg: nat) returns (d': Desc, ghost e': ExpDesc)
      requires Holds(d, e)
      modifies `code, `waiting, `jpc, `here, `consts, `lasttarget
      ensures Holds(d', e') && (View(), e') == CodeGen.Exp2Reg(old(View()), e, reg)
      ensures Moves(old(here) + e.t + e.f + JumpOf(e.k), here) && d' == Desc(CodeGen.VNONRELOC(reg), NO_JUMP, NO_JUMP)
    {
      hide CodeGen.Discharge2Reg, LandedJumps, HoldsIn, CodeGen.Exp2Reg, Chain, Abs, Distinct, Waits;
      ghost var s := View();
      var d1, e1 := Discharge2Reg(d, e, reg);
      DischargedKind(s, e, reg);
      Exp2RegLands(s, e, reg);
      HoldsParts(code, waiting, jpc, here, d1, e1);
      JoinNothing(e1);
      if d1.k.VJMP? {
        d1, e1 := JoinJump(d1, e1);
      }
      HeadsDiffer(code, d1.t, d1.f, e1.t, e1.f);
      d', e' := Desc(CodeGen.VNONRELOC(reg), NO_JUMP, NO_JUMP), CodeGen.ExpDesc(CodeGen.VNONRELOC(reg), [], []);
      if d1.t != d1.f {
        LandJumps(d1, e1, reg);
      }
      NoLists(code, waiting, jpc, here, reg);
    }

    /** The jump of a comparison joins the list of true exits. */
    method JoinJump(d: Desc, ghost e: ExpDesc) returns (d': Desc, ghost e': ExpDesc)
      requires Holds(d, e) && d.k.VJMP?
      modifies `code
      ensures Valid() && d'.k == d.k && d'.f == d.f && e' == e.(t := e.t + [e.k.jump]) && |code| == |old(code)|
              && View() == old(View())
      ensures Chain(code, d'.t, e'.t) && Chain(code, d'.f, e'.f) && Within(e'.t, waiting) && Within(e'.f, waiting)
              && Distinct(e'.t + e'.f)
      ensures forall j :: j in e'.t || j in e'.f ==> j !in here
      ensures forall j :: 0 <= j < |code| && j !in e.t ==> code[j] == old(code)[j]
    {
      HoldsParts(code, waiting, jpc, here, d, e);
      ghost var c, x := code, [e.k.jump];
      JoinApart(here, e.t, e.f, x);
      var t := Concat(d.t, d.k.jump, e.t, x);
      ChainKept(c, code, d.f, e.f);
      ChainKept(c, code, jpc, here);
      d', e' := d.(t := t), e.(t := e.t + x);
    }

    method ReserveReg()
      modifies `freereg
      ensures View() == CodeGen.Reserve(old(View()))
    {
      freereg := freereg + 1;
    }

    /** `luaK_exp2nextreg`. */
    method Exp2NextReg(d: Desc, ghost e: ExpDesc) returns (d': Desc, ghost e': ExpDesc)
      requires Holds(d, e)
      modifies this
      ensures Holds(d', e') && (View(), e') == CodeGen.Exp2NextReg(old(View()), e)
      ensures Moves(old(here) + e.t + e.f + JumpOf(e.k), here) && d'.t == d'.f == NO_JUMP
    {
      hide CodeGen.Exp2Reg, CodeGen.DischargeVars, HoldsIn, CodeGen.FreeExp, Abs;
      DischargedVars(View(), e);
      d', e' := DischargeVars(d, e);
      HoldsParts(code, waiting, jpc, here, d', e');
      FreeExp(d');
      ReserveReg();
      d', e' := Exp2Reg(d', e', freereg - 1);
    }

    /** `luaK_exp2anyreg`. */
    method Exp2AnyReg(d: Desc, ghost e: ExpDesc) returns (d': Desc, ghost e': ExpDesc)
      requires Holds(d, e)
      modifies this
      ensures Holds(d', e') && (View(), e') == CodeGen.Exp2AnyReg(old(View()), e)
      ensures Moves(old(here) + e.t + e.f + JumpOf(e.k), here) && d'.t == d'.f == NO_JUMP
    {
      hide CodeGen.Exp2Reg, CodeGen.Exp2NextReg, CodeGen.DischargeVars, HoldsIn, Abs, Chain, Distinct;
      DischargedVars(View(), e);
      d', e' := DischargeVars(d, e);
      HoldsParts(code, waiting, jpc, here, d', e');
      HeadsDiffer(code, d'.t, d'.f, e'.t, e'.f);
      EmptyHead(code, d'.t, e'.t);
      EmptyHead(code, d'.f, e'.f);
      if d'.k.VNONRELOC? && d'.t == d'.f { return; }
      if d'.k.VNONRELOC? && d'.k.reg >= nactvar {
        d', e' := Exp2Reg(d', e', d'.k.reg);
      } else {
        d', e' := Exp2NextReg(d', e');
      }
    }

    /** `luaK_exp2RK`, for an operand. */
    method Exp2RK(d: Desc, ghost e: ExpDesc) returns (d': Desc, ghost e': ExpDesc)
      requires Holds(d, e)
      modifies this
      ensures Holds(d', e') && (View(), e') == CodeGen.Exp2RK(old(View()), e)
      ensures Moves(old(here) + e.t + e.f + JumpOf(e.k), here) && d'.t == d'.f == NO_JUMP && !d'.k.VJMP?
    {
      hide CodeGen.Exp2AnyReg, CodeGen.DischargeVars, HoldsIn, Abs, Chain, Distinct, CodeGen.AddK, CodeGen.KOf;
      HoldsParts(code, waiting, jpc, here, d, e);
      HeadsDiffer(code, d.t, d.f, e.t, e.f);
      EmptyHead(code, d.t, e.t);
      EmptyHead(code, d.f, e.f);
      AnyRegKind(old(View()), e);
      DischargedVars(View(), e);
      if d.t != d.f {
        d', e' := Exp2AnyReg(d, e);
        HoldsParts(code, waiting, jpc, here, d', e');
      } else {
        d', e' := DischargeVars(d, e);
        HoldsParts(code, waiting, jpc, here, d', e');
        var lit := CodeGen.LiteralOf(d'.k);
        if lit.Some? && |consts| <= CodeGen.MAXINDEXRK {
          AddKConsts(View(), lit.value);
          var k := AddK(lit.value);
          Rekind(code, waiting, jpc, here, d', e', CodeGen.VK(k));
          return d'.(k := CodeGen.VK(k)), e'.(k := CodeGen.VK(k));
        }
      }
      if !(d'.k.VK? && d'.k.k <= CodeGen.MAXINDEXRK) {
        AnyRegKind(View(), e');
        EmptyHead(code, d'.t, e'.t);
        EmptyHead(code, d'.f, e'.f);
        d', e' := Exp2AnyReg(d', e');
        HoldsParts(code, waiting, jpc, here, d', e');
      }
    }

    // Conditions

    /** The lists of `e`, and the list `l`, are apart and threaded through the code. */
    ghost predicate Leaves(d: Desc, e: ExpDesc, pc: int, l: seq<nat>)
      reads this
    {
      && Valid() && d.k == e.k && Chain(code, d.t, e.t) && Chain(code, d.f, e.f) && Chain(code, pc, l)
      && Distinct(here + e.t + e.f + l) && Within(here + e.t + e.f + l, waiting)
    }

    /** `jumponcond`: the jump is taken when the value is `cond`. */
    method JumpOnCond(d: Desc, ghost e: ExpDesc, cond: bool) returns (j: nat)
      requires Holds(d, e) && AtEnd(code, d.k) && !d.k.VJMP?
      modifies this
      ensures Leaves(d, e, j, [j]) && here == [] && View() == CodeGen.JumpOnCond(old(View()), e, cond)
      ensures Keeps(old(here)) && |old(code)| <= j == |code| - 1
    {
      hide CodeGen.Discharge2AnyReg, CodeGen.CondJump, HoldsIn, Abs, Chain, Distinct, Within, Waits, CodeGen.FreeExp;
      HoldsParts(code, waiting, jpc, here, d, e);
      if d.k.VRELOCABLE? && code[d.k.pc].Not? {
        var b := code[d.k.pc].b;
        CutHolds(code, waiting, jpc, here, d, e);
        code := code[..|code| - 1];
        ghost var c, w, i, h := code, waiting, jpc, here;
        HoldsParts(c, w, i, h, d, e);
        j := CondJump(Test(b, !cond));
        Survive(c, w, i, h, code, waiting, d, e);
      } else {
        AtEndAbs(code, waiting, d.k);
        var d1, e1 := Discharge2AnyReg(d, e);
        AnyRegFrom(old(View()), e);
        FreeExp(d1);
        ghost var c, w, i, h := code, waiting, jpc, here;
        HoldsParts(c, w, i, h, d1, e1);
        j := CondJump(TestSet(None, if d1.k.VNONRELOC? then d1.k.reg else 0, cond));
        Survive(c, w, i, h, code, waiting, d1, e1);
      }
      LeavesOne(code, waiting, jpc, d, e, j);
    }

    /** The jump out of the expression when it is not `cond`. */
    method LeaveUnless(d: Desc, ghost e: ExpDesc, cond: bool) returns (pc: int, ghost l: seq<nat>)
      requires Holds(d, e) && AtEnd(code, d.k)
      modifies this
      ensures Leaves(d, e, pc, l) && (View(), l) == CodeGen.LeaveUnless(old(View()), e, cond)
      ensures Moves(old(here) + e.t + e.f + JumpOf(e.k), here + l)
    {
      hide CodeGen.JumpOnCond, CodeGen.InvertJump, HoldsIn, Abs, Chain, Distinct;
      HoldsParts(code, waiting, jpc, here, d, e);
      if CodeGen.GoesOn(d.k, cond) {
        ChainEmpty(code);
        LeavesNone(code, waiting, jpc, here, d, e);
        return NO_JUMP, [];
      } else if CodeGen.AlwaysJumps(d.k, cond) {
        ghost var c, w, i, h := code, waiting, jpc, here;
        pc, l := Jump();
        Survive(c, w, i, h, code, waiting, d, e);
        HoldsParts(code, waiting, jpc, here, d, e);
        LeavesJumps(code, waiting, pc, d, e, l, h);
      } else if d.k.VJMP? {
        if cond {
          ghost var c := code;
          InvertJump(d.k.jump);
          HoldsStill(c, waiting, jpc, here, code, d, e);
          HoldsParts(code, waiting, jpc, here, d, e);
        }
        LeavesJump(code, waiting, jpc, here, d, e);
        return d.k.jump, [d.k.jump];
      } else {
        pc := JumpOnCond(d, e, !cond);
        l := [pc];
      }
    }

    /** The jump out joins its list, and the jumps of the other list lead here. */
    method GoOn(d: Desc, ghost e: ExpDesc, pc: int, ghost l: seq<nat>, cond: bool) returns (d': Desc, ghost e': ExpDesc)
      requires Leaves(d, e, pc, l)
      modifies `code, `jpc, `here, `lasttarget
      ensures HoldsIn(code, waiting, jpc, here, Closed(d'), Opened(e'))
              && Moves(old(here) + e.t + e.f + l, here + e'.t + e'.f) && d'.k == e'.k == e.k
      ensures View() == CodeGen.PatchToHere(old(View()), if cond then e.t else e.f)
      ensures e' == if cond then e.(t := [], f := e.f + l) else e.(f := [], t := e.t + l)
    {
      hide Abs, Chain, Distinct, HoldsIn, CodeGen.PatchToHere;
      ghost var c := code;
      if cond {
        GoOnApart(here, e.t, e.f, l);
        var f := Concat(d.f, pc, e.f, l);
        ChainKept(c, code, jpc, here);
        ChainKept(c, code, d.t, e.t);
        c := code;
        PatchToHere(d.t, e.t);
        ChainKept(c, code, f, e.f + l);
        d', e' := Desc(d.k, NO_JUMP, f), CodeGen.ExpDesc(e.k, [], e.f + l);
        GoOnHolds(code, waiting, jpc, here, d', e');
      } else {
        GoOnApart2(here, e.t, e.f, l);
        var t := Concat(d.t, pc, e.t, l);
        ChainKept(c, code, jpc, here);
        ChainKept(c, code, d.f, e.f);
        c := code;
        PatchToHere(d.f, e.f);
        ChainKept(c, code, t, e.t + l);
        d', e' := Desc(d.k, t, NO_JUMP), CodeGen.ExpDesc(e.k, e.t + l, []);
        GoOnHolds2(code, waiting, jpc, here, d', e');
      }
    }

    /** `luaK_goiftrue` and `luaK_goiffalse`: go on if the expression is `cond`. */
    method GoIf(d: Desc, ghost e: ExpDesc, cond: bool) returns (d': Desc, ghost e': ExpDesc)
      requires Holds(d, e) && AtEnd(code, d.k)
      modifies this
      ensures d'.k == e'.k && if cond then e'.t == [] else e'.f == []
      ensures Holds(Closed(d'), Opened(e'))
      ensures Moves(old(here) + e.t + e.f + JumpOf(e.k), here + e'.t + e'.f)
      ensures (View(), e') == CodeGen.GoIf(old(View()), e, cond)
    {
      hide CodeGen.LeaveUnless, CodeGen.DischargeVars, HoldsIn, Abs, Chain, Distinct;
      DischargedVars(View(), e);
      ghost var lists := here + e.t + e.f + JumpOf(e.k);
      var d1, e1 := DischargeVars(d, e);
      HoldsParts(code, waiting, jpc, here, d1, e1);
      ghost var c1, w1, l1 := code, waiting, here + e1.t + e1.f + JumpOf(e1.k);
      var pc, l := LeaveUnless(d1, e1, cond);
      MovedTwice(old(code), old(waiting), lists, c1, w1, l1, code, waiting, here + l);
      ghost var c2, w2, l2 := code, waiting, here + e.t + e.f + l;
      d', e' := GoOn(d1, e1, pc, l, cond);
      MovedTwice(old(code), old(waiting), lists, c2, w2, l2, code, waiting, here + e'.t + e'.f);
    }

    /** The value of the negation. */
    method NotValue(d: Desc, ghost e: ExpDesc) returns (k: Kind)
      requires Holds(d, e)
      modifies this
      ensures Holds(d.(k := k), e.(k := k)) && (View(), k) == CodeGen.NotValue(old(View()), e)
      ensures Moves(old(here), here) && AtEnd(code, k) && (k.VJMP? ==> k == d.k)
    {
      hide CodeGen.InvertJump, CodeGen.Discharge2AnyReg, CodeGen.FreeExp, HoldsIn, Abs, Chain, Distinct;
      HoldsParts(code, waiting, jpc, here, d, e);
      match d.k {
        case VNIL => k := CodeGen.VTRUE;
        case VFALSE => k := CodeGen.VTRUE;
        case VK(_) => k := CodeGen.VFALSE;
        case VKNUM(_) => k := CodeGen.VFALSE;
        case VTRUE => k := CodeGen.VFALSE;
        case VJMP(j) =>
          ghost var c := code;
          InvertJump(j);
          HoldsStill(c, waiting, jpc, here, code, d, e);
          return d.k;
        case _ =>
          k := NotRegister(d, e);
          return;
      }
      Rekind(code, waiting, jpc, here, d, e, k);
    }

    /** OP_NOT on the register of the value. */
    method NotRegister(d: Desc, ghost e: ExpDesc) returns (k: Kind)
      requires Holds(d, e) && !d.k.VJMP?
      modifies this
      ensures |code| > 0 && k == CodeGen.VRELOCABLE(|code| - 1) && AtEnd(code, k)
      ensures Holds(d.(k := k), e.(k := k)) && Moves(old(here), here)
      ensures var (r, f) := CodeGen.Discharge2AnyReg(old(View()), e);
              var r1 := CodeGen.FreeExp(r, f);
              View() == CodeGen.Emit(r1, Not(None, if f.k.VNONRELOC? then f.k.reg else 0)) && |r1.code| == |code| - 1
    {
      hide CodeGen.Discharge2AnyReg, CodeGen.FreeExp, HoldsIn, Abs, Chain, Distinct;
      var d1, e1 := Discharge2AnyReg(d, e);
      AnyRegFrom(old(View()), e);
      FreeExp(d1);
      ghost var c, w, i, h := code, waiting, jpc, here;
      HoldsParts(c, w, i, h, d1, e1);
      Code(Not(None, if d1.k.VNONRELOC? then d1.k.reg else 0));
      k := CodeGen.VRELOCABLE(|code| - 1);
      Survive(c, w, i, h, code, waiting, d1, e1);
      Rekind(code, waiting, jpc, here, d1, e1, k);
      EmittedWord(c, w, Not(None, if d1.k.VNONRELOC? then d1.k.reg else 0), code, waiting);
    }

    /** `codenot`. */
    method CodeNot(d: Desc, ghost e: ExpDesc) returns (d': Desc, ghost e': ExpDesc)
      requires Holds(d, e)
      modifies this
      ensures Holds(d', e') && (View(), e') == CodeGen.CodeNot(old(View()), e) && AtEnd(code, d'.k)
      ensures Moves(old(here) + e.t + e.f + JumpOf(e.k), here + e'.t + e'.f + JumpOf(e'.k))
    {
      hide CodeGen.NotValue, CodeGen.DischargeVars, CodeGen.RemoveValues, HoldsIn, Abs, Chain, Distinct;
      DischargedVars(View(), e);
      ghost var lists := here + e.t + e.f + JumpOf(e.k);
      var d1, e1 := DischargeVars(d, e);
      HoldsParts(code, waiting, jpc, here, d1, e1);
      ghost var c1, w1, l1 := code, waiting, here;
      var k := NotValue(d1, e1);
      MovedTwice(old(code), old(waiting), lists, c1, w1, l1, code, waiting, here);
      HoldsParts(code, waiting, jpc, here, d1.(k := k), e1.(k := k));
      ghost var c := code;
      RemoveValues(d1.t, e1.t);
      ChainKept(c, code, d1.f, e1.f);
      RemoveValues(d1.f, e1.f);
      HoldsStill(c, waiting, jpc, here, code, d1.(k := k), e1.(k := k));
      SwapHolds(code, waiting, jpc, here, d1.(k := k), e1.(k := k));
      SameJumps(c, code, k);
      d', e' := Desc(k, d1.f, d1.t), CodeGen.ExpDesc(k, e1.f, e1.t);
      ghost var l2 := here + e1.f + e1.t + JumpOf(k);
      MovedTwice(old(code), old(waiting), lists, c, waiting, l2, code, waiting, l2);
    }

    /** `codecomp`: the first operand is in place already. */
    method CodeComp(op: CodeGen.Comparison, d1: Desc, ghost e1: ExpDesc, d2: Desc, ghost e2: ExpDesc)
      returns (d': Desc, ghost e': ExpDesc)
      requires Holds(d1, e1) && Holds(d2, e2) && d1.t == d1.f == NO_JUMP && !d1.k.VJMP?
      modifies this
      ensures Holds(d', e') && (View(), e') == CodeGen.CodeComp(old(View()), op, e1, e2) && !d'.k.VRELOCABLE?
      ensures Moves(old(here) + e2.t + e2.f + JumpOf(e2.k), here + e'.t + e'.f + JumpOf(e'.k))
    {
      hide CodeGen.Exp2RK, CodeGen.FreeExp, CodeGen.CondJump, CodeGen.RkOf, HoldsIn;
      hide Abs, Chain, Distinct, Within, Waits;
      HoldsParts(code, waiting, jpc, here, d1, e1);
      EmptyHead(code, d1.t, e1.t);
      EmptyHead(code, d1.f, e1.f);
      ghost var c, w, i, h := code, waiting, jpc, here;
      var a, x := Exp2RK(d1, e1);
      HoldsParts(code, waiting, jpc, here, a, x);
      EmptyHead(code, a.t, x.t);
      EmptyHead(code, a.f, x.f);
      HoldsMoved(c, w, i, h, code, waiting, jpc, here, d2, e2);
      ghost var c1, w1, l1 := code, waiting, here + e2.t + e2.f + JumpOf(e2.k);
      var b, y := Exp2RK(d2, e2);
      MovedTwice(old(code), old(waiting), old(here) + e2.t + e2.f + JumpOf(e2.k), c1, w1, l1, code, waiting, here);
      HoldsParts(code, waiting, jpc, here, b, y);
      ghost var c2, w2, h2 := code, waiting, here;
      var j := EmitComparison(op, a, x, b, y);
      d', e' := Desc(CodeGen.VJMP(j), a.t, a.f), CodeGen.ExpDesc(CodeGen.VJMP(j), x.t, x.f);
      MovedTwice(old(code), old(waiting), old(here) + e2.t + e2.f + JumpOf(e2.k), c2, w2, h2, code, waiting, [j]);
    }

    /** The end of `codecomp`: both operands are freed, and the comparison is emitted with its jump. */
    method EmitComparison(op: CodeGen.Comparison, a: Desc, ghost x: ExpDesc, b: Desc, ghost y: ExpDesc) returns (j: nat)
      requires Valid() && a.k == x.k && b.k == y.k
      modifies this
      ensures Holds(Desc(CodeGen.VJMP(j), NO_JUMP, NO_JUMP), CodeGen.ExpDesc(CodeGen.VJMP(j), [], [])) && here == []
      ensures Keeps(old(here)) && j == |old(code)| + 1 && |code| == |old(code)| + 2
      ensures var s := CodeGen.FreeExp(CodeGen.FreeExp(old(View()), y), x);
              View() == CodeGen.CondJump(s, ComparisonOf(op, x.k, y.k)) && j == |s.code| + 1
    {
      hide CodeGen.FreeExp, CodeGen.CondJump, CodeGen.RkOf, HoldsIn, Abs, Chain, Distinct, Within, Waits;
      FreeExp(b);
      FreeExp(a);
      j := CondJump(ComparisonOf(op, a.k, b.k));
      OneJump(code, waiting, jpc, j);
    }

    /**
      The calls that `subexpr` makes for an expression; the code is what `Compile` says, and the lists of others stay.
     */
    method Expression(e: CodeGen.Expr) returns (d: Desc, ghost x: ExpDesc)
      requires Valid()
      modifies this
      ensures Holds(d, x) && (View(), x) == CodeGen.Compile(old(View()), e) && AtEnd(code, d.k)
      ensures Moves(old(here), here + x.t + x.f + JumpOf(x.k))
      decreases e, 2
    {
      hide CodeGen.GoIf, CodeGen.DischargeVars, CodeGen.CodeNot, CodeGen.CodeComp, CodeGen.Exp2RK, CodeGen.AddK;
      hide CodeGen.KOf, HoldsIn, Abs, Chain, Distinct;
      ghost var c, w, h := code, waiting, here;
      match e {
        case Lit(v) =>
          d, x := Atom(CodeGen.LitKind(v));
        case Str(n) =>
          AddKConsts(View(), Other(n));
          var k := AddK(Other(n));
          d, x := Atom(CodeGen.VK(k));
        case Local(r) =>
          d, x := Atom(CodeGen.VLOCAL(r));
        case Up(u) =>
          d, x := Atom(CodeGen.VUPVAL(u));
        case Neg(a) =>
          d, x := Expression(a);
          ghost var c1, w1, l1 := code, waiting, here + x.t + x.f + JumpOf(x.k);
          d, x := CodeNot(d, x);
          MovedTwice(c, w, h, c1, w1, l1, code, waiting, here + x.t + x.f + JumpOf(x.k));
        case And(a, b) =>
          d, x := Expression(a);
          ghost var c1, w1, l1 := code, waiting, here + x.t + x.f + JumpOf(x.k);
          d, x := GoIf(d, x, true);
          MovedTwice(c, w, h, c1, w1, l1, code, waiting, here + x.t + x.f);
          d, x := SecondOperand(b, d, x, true, c, w, h);
        case Or(a, b) =>
          d, x := Expression(a);
          ghost var c1, w1, l1 := code, waiting, here + x.t + x.f + JumpOf(x.k);
          d, x := GoIf(d, x, false);
          MovedTwice(c, w, h, c1, w1, l1, code, waiting, here + x.t + x.f);
          d, x := SecondOperand(b, d, x, false, c, w, h);
        case Cmp(op, a, b) =>
          d, x := Comparison(op, a, b);
      }
    }

    /** A descriptor without jumps. */
    method Atom(k: Kind) returns (d: Desc, ghost x: ExpDesc)
      requires Valid() && !k.VJMP? && !k.VRELOCABLE?
      ensures Holds(d, x) && x == CodeGen.ExpDesc(k, [], []) && AtEnd(code, d.k) && d.k == k
    {
      d, x := Desc(k, NO_JUMP, NO_JUMP), CodeGen.ExpDesc(k, [], []);
      NoLists(code, waiting, jpc, here, 0);
      Rekind(code, waiting, jpc, here, Desc(CodeGen.VNONRELOC(0), NO_JUMP, NO_JUMP),
             CodeGen.ExpDesc(CodeGen.VNONRELOC(0), [], []), k);
    }

    /** The second operand of `and` or `or`; the exits of the first join its list. */
    method SecondOperand(b: CodeGen.Expr, g: Desc, ghost y: ExpDesc, cond: bool, ghost c: seq<Ins>, ghost w: set<nat>,
                         ghost h: seq<nat>)
      returns (d: Desc, ghost x: ExpDesc)
      requires Holds(Closed(g), Opened(y)) && Moved(c, w, h, code, waiting, here + y.t + y.f)
               && if cond then y.t == [] else y.f == []
      modifies this
      ensures Holds(d, x) && AtEnd(code, d.k) && Moved(c, w, h, code, waiting, here + x.t + x.f + JumpOf(x.k))
      ensures var (s3, d3) := CodeGen.Compile(old(View()), b);
              var (s4, d4) := CodeGen.DischargeVars(s3, d3);
              (View(), x) == (s4, if cond then d4.(f := d4.f + y.f) else d4.(t := d4.t + y.t))
      decreases b, 3
    {
      hide CodeGen.Compile, CodeGen.DischargeVars, HoldsIn, Abs, Chain, Distinct, Within, Waits;
      ghost var c1, w1, j1, h1 := code, waiting, jpc, here;
      HoldsParts(c1, w1, j1, h1, Closed(g), Opened(y));
      d, x := Expression(b);
      HoldsParts(code, waiting, jpc, here, d, x);
      MovedTwice(c, w, h, c1, w1, h1, code, waiting, here + x.t + x.f + JumpOf(x.k));
      HoldsMoved(c1, w1, j1, h1, code, waiting, jpc, here, Closed(g), Opened(y));
      DischargedVars(View(), x);
      ghost var c2, w2, j2, h2, l2 := code, waiting, jpc, here, here + x.t + x.f + JumpOf(x.k);
      d, x := DischargeVars(d, x);
      HoldsParts(code, waiting, jpc, here, d, x);
      HoldsMoved(c2, w2, j2, h2, code, waiting, jpc, here, Closed(g), Opened(y));
      HoldsParts(code, waiting, jpc, here, Closed(g), Opened(y));
      MovedTwice(c, w, h, c2, w2, l2, code, waiting, here);
      ListsApart(c1, w1, h1, y, here, x);
      ghost var c3, l3 := code, here + x.t + x.f + JumpOf(x.k);
      if cond {
        ApartDistinct(code, d.f, x.f, g.f, y.f);
        var f := Concat(d.f, g.f, x.f, y.f);
        JoinHolds(c3, code, waiting, jpc, here, d, x, f, y.f);
        d, x := d.(f := f), x.(f := x.f + y.f);
      } else {
        SwapHolds(code, waiting, jpc, here, d, x);
        ApartDistinct(code, d.t, x.t, g.t, y.t);
        var t := Concat(d.t, g.t, x.t, y.t);
        JoinHolds(c3, code, waiting, jpc, here, Desc(d.k, d.f, d.t), CodeGen.ExpDesc(x.k, x.f, x.t), t, y.t);
        d, x := d.(t := t), x.(t := x.t + y.t);
        SwapHolds(code, waiting, jpc, here, Desc(d.k, d.f, d.t), CodeGen.ExpDesc(x.k, x.f, x.t));
      }
      SameJumps(c3, code, d.k);
      MovedTwice(c, w, h, c3, waiting, l3, code, waiting, l3);
    }

    /** A comparison and its operands. */
    method Comparison(op: CodeGen.Comparison, a: CodeGen.Expr, b: CodeGen.Expr) returns (d: Desc, ghost x: ExpDesc)
      requires Valid()
      modifies this
      ensures Holds(d, x) && (View(), x) == CodeGen.Compile(old(View()), CodeGen.Cmp(op, a, b)) && AtEnd(code, d.k)
      ensures Moves(old(here), here + x.t + x.f + JumpOf(x.k))
      decreases CodeGen.Cmp(op, a, b), 1
    {
      hide CodeGen.CodeComp, CodeGen.Exp2RK, CodeGen.Compile, HoldsIn, Abs, Chain, Distinct;
      CompileCmp(View(), op, a, b);
      ghost var c, w, h := code, waiting, here;
      var d1, x1 := Expression(a);
      ghost var c1, w1, l1 := code, waiting, here + x1.t + x1.f + JumpOf(x1.k);
      d1, x1 := Exp2RK(d1, x1);
      MovedTwice(c, w, h, c1, w1, l1, code, waiting, here);
      ghost var c2, w2, j2, h2 := code, waiting, jpc, here;
      HoldsParts(code, waiting, jpc, here, d1, x1);
      var d2, x2 := Expression(b);
      HoldsParts(code, waiting, jpc, here, d2, x2);
      MovedTwice(c, w, h, c2, w2, h2, code, waiting, here);
      HoldsMoved(c2, w2, j2, h2, code, waiting, jpc, here, d1, x1);
      ghost var c3, w3, l3 := code, waiting, here + x2.t + x2.f + JumpOf(x2.k);
      d, x := CodeComp(op, d1, x1, d2, x2);
      MovedTwice(c, w, h, c3, w3, l3, code, waiting, here + x.t + x.f + JumpOf(x.k));
    }

    /** `cond`: code for a condition, and the list of jumps for when it is false. */
    method Condition(e: CodeGen.Expr) returns (f: int, ghost l: seq<nat>)
      requires Valid()
      modifies this
      ensures Valid() && (View(), l) == CodeGen.Condition(old(View()), e) && Chain(code, f, l) && Within(l, waiting)
      ensures Moves(old(here), here + l)
    {
      hide CodeGen.GoIf, CodeGen.Compile, HoldsIn, Abs, Chain, Distinct;
      var d, x := Expression(e);
      HoldsParts(code, waiting, jpc, here, d, x);
      if d.k.VNIL? {
        Rekind(code, waiting, jpc, here, d, x, CodeGen.VFALSE);
        d, x := d.(k := CodeGen.VFALSE), x.(k := CodeGen.VFALSE);
      }
      ghost var c1, w1, l1 := code, waiting, here + x.t + x.f + JumpOf(x.k);
      d, x := GoIf(d, x, true);
      HoldsParts(code, waiting, jpc, here, Closed(d), Opened(x));
      MovedTwice(old(code), old(waiting), old(here), c1, w1, l1, code, waiting, here + x.f);
      f, l := d.f, x.f;
    }
  }

  /** What `exp2reg` does with the jumps, once the value is loaded. */
  function ComparisonOf(op: CodeGen.Comparison, a: Kind, b: Kind): Ins {
    var x, y := CodeGen.RkOf(a), CodeGen.RkOf(b);
    if op.Gt? || op.Ge? then Compare(CodeGen.OpOf(op), true, y, x) else Compare(CodeGen.OpOf(op), !op.Ne?, x, y)
  }

  function LandedJumps(s: State, e: ExpDesc, reg: nat): State {
    var need := CodeGen.NeedValue(s.code, e.t) || CodeGen.NeedValue(s.code, e.f);
    var pf := |s.code| + if e.k.VJMP? then 0 else 1;
    var r := CodeGen.GetLabel(if need then CodeGen.LoadBools(s, e.k, reg) else s);
    r.(code := CodeGen.PatchList(CodeGen.PatchList(r.code, e.f, |r.code|, Some(reg), pf), e.t, |r.code|,
                                 Some(reg), pf + 1))
  }

  function WithJump(e: ExpDesc): ExpDesc { e.(t := e.t + JumpOf(e.k)) }

  lemma Exp2RegLands(s: State, e: ExpDesc, reg: nat)
    ensures var (r, f) := CodeGen.Discharge2Reg(s, e, reg);
            CodeGen.Exp2Reg(s, e, reg) ==
              (if WithJump(f).t == f.f then r else LandedJumps(r, WithJump(f), reg),
               CodeGen.ExpDesc(CodeGen.VNONRELOC(reg), [], []))
  {
    hide CodeGen.Discharge2Reg, CodeGen.LoadBools, CodeGen.PatchList, CodeGen.NeedValue;
    var (r, f) := CodeGen.Discharge2Reg(s, e, reg);
    assert f.t + [] == f.t;
  }

  /** A relocatable instruction is the last one. */
  predicate AtEnd(c: seq<Ins>, k: Kind) {
    k.VRELOCABLE? ==> k.pc + 1 == |c| && !c[k.pc].Jmp?
  }

  lemma AtEndAbs(c: seq<Ins>, w: set<nat>, k: Kind)
    requires AtEnd(c, k)
    ensures k.VRELOCABLE? ==> Abs(c, w)[k.pc] == c[k.pc]
  {
  }

  lemma CutHolds(c: seq<Ins>, w: set<nat>, jpc: int, here: seq<nat>, d: Desc, e: ExpDesc)
    requires HoldsIn(c, w, jpc, here, d, e) && |c| > 0 && !c[|c| - 1].Jmp?
    ensures var c' := c[..|c| - 1]; HoldsIn(c', w, jpc, here, d, e) && Abs(c', w) == Abs(c, w)[..|c| - 1]
    ensures Abs(c, w)[|c| - 1] == c[|c| - 1]
  {
    HoldsParts(c, w, jpc, here, d, e);
    var c' := c[..|c| - 1];
    ChainCut(c, jpc, here);
    ChainCut(c, d.t, e.t);
    ChainCut(c, d.f, e.f);
    if e.k.VJMP? { ChainCut(c, e.k.jump, [e.k.jump]); }
  }

  lemma ChainCut(c: seq<Ins>, h: int, l: seq<nat>)
    requires Chain(c, h, l) && |c| > 0 && !c[|c| - 1].Jmp?
    ensures Chain(c[..|c| - 1], h, l)
  {
    var c' := c[..|c| - 1];
    forall i | 0 <= i < |l|
      ensures Linked(c', l, i)
    {
      assert Linked(c, l, i);
    }
  }

  lemma AnyRegFrom(s: State, e: ExpDesc)
    ensures var (r, f) := CodeGen.Discharge2AnyReg(s, e); f.t == e.t && f.f == e.f
  {
    DischargedKind(CodeGen.Reserve(s), e, s.freereg);
  }

  lemma LeavesOne(c: seq<Ins>, w: set<nat>, jpc: int, d: Desc, e: ExpDesc, j: nat)
    requires Waits(c, w) && Chain(c, d.t, e.t) && Chain(c, d.f, e.f) && Distinct(e.t + e.f) && Within(e.t, w)
             && Within(e.f, w)
    requires j in w && j !in e.t && j !in e.f
    ensures Distinct([] + e.t + e.f + [j]) && Within([] + e.t + e.f + [j], w)
  {
    assert [] + e.t + e.f == e.t + e.f;
    DistinctJoin(e.t + e.f, [j]);
  }

  /** From the lists `l` to the lists `l'`: no other waiting jump is touched, and only new ones are added. */
  ghost predicate Moved(c: seq<Ins>, w: set<nat>, l: seq<nat>, c': seq<Ins>, w': set<nat>, l': seq<nat>) {
    && |c'| >= |c|
    && (forall j :: j in w && j !in l ==> j in w' && j < |c'| && j < |c| && c'[j] == c[j])
    && forall j :: j in l' ==> j in l || j >= |c|
  }

  /** The lists of an expression survive what touches only the jumps to here. */
  lemma HoldsMoved(c: seq<Ins>, w: set<nat>, jpc: int, here: seq<nat>, c': seq<Ins>, w': set<nat>, jpc': int,
                   here': seq<nat>, d: Desc, e: ExpDesc)
    requires HoldsIn(c, w, jpc, here, d, e) && Moved(c, w, here, c', w', here')
    requires Waits(c', w') && Chain(c', jpc', here') && Within(here', w')
    ensures HoldsIn(c', w', jpc', here', d, e)
  {
    HoldsParts(c, w, jpc, here, d, e);
    ChainKept(c, c', d.t, e.t);
    ChainKept(c, c', d.f, e.f);
    if e.k.VJMP? { ChainKept(c, c', e.k.jump, [e.k.jump]); }
    ChainEnds(c', jpc', here');
    var l := e.t + e.f + JumpOf(e.k);
    assert here' + e.t + e.f + JumpOf(e.k) == here' + l;
    assert forall j :: j in l ==> j in e.t || j in e.f || j in JumpOf(e.k);
    DistinctJoin(here', l);
  }

  lemma CompileCmp(s: State, op: CodeGen.Comparison, a: CodeGen.Expr, b: CodeGen.Expr)
    ensures CodeGen.Compile(s, CodeGen.Cmp(op, a, b)) ==
              (var (s1, d1) := CodeGen.Compile(s, a);
               var (s2, d2) := CodeGen.Exp2RK(s1, d1);
               var (s3, d3) := CodeGen.Compile(s2, b);
               CodeGen.CodeComp(s3, op, d2, d3))
  {
    hide CodeGen.CodeComp, CodeGen.Exp2RK;
  }

  lemma ApartDistinct(c: seq<Ins>, h: int, l: seq<nat>, h': int, l': seq<nat>)
    requires Chain(c, h, l) && Chain(c, h', l') && forall j :: j in l' ==> j !in l
    ensures Distinct(l + l')
  {
    ChainEnds(c, h, l);
    ChainEnds(c, h', l');
    DistinctJoin(l, l');
  }

  /** Lists from before, and lists of new jumps or of the jumps that led here. */
  lemma ListsApart(c: seq<Ins>, w: set<nat>, h: seq<nat>, y: ExpDesc, here: seq<nat>, x: ExpDesc)
    requires Waits(c, w) && Within(y.t, w) && Within(y.f, w) && forall j :: j in y.t || j in y.f ==> j !in h
    requires forall j :: j in here || j in x.t || j in x.f || j in JumpOf(x.k) ==> j in h || j >= |c|
    ensures forall j :: j in y.t || j in y.f ==> j !in here && j !in x.t && j !in x.f && j !in JumpOf(x.k)
  {
  }

  /** The second list of an expression after more jumps were linked to it. */
  lemma JoinHolds(c: seq<Ins>, c': seq<Ins>, w: set<nat>, jpc: int, here: seq<nat>, d: Desc, x: ExpDesc, f: int,
                  l: seq<nat>)
    requires HoldsIn(c, w, jpc, here, d, x) && Waits(c', w) && Chain(c', f, x.f + l) && Within(l, w)
    requires |c'| == |c| && forall j :: 0 <= j < |c| && j !in x.f ==> c'[j] == c[j]
    requires forall j :: j in l ==> j !in here && j !in x.t && j !in x.f && j !in JumpOf(x.k)
    ensures HoldsIn(c', w, jpc, here, d.(f := f), x.(f := x.f + l))
  {
    HoldsParts(c, w, jpc, here, d, x);
    var t, k := x.t, JumpOf(x.k);
    DistinctParts(here + t, x.f);
    DistinctParts(x.t + x.f, k);
    DistinctParts(x.t, x.f);
    assert forall j :: j in t || j in x.f ==> j in t + x.f;
    assert forall j :: j in here || j in t ==> j in here + t;
    ChainKept(c, c', jpc, here);
    ChainKept(c, c', d.t, t);
    if x.k.VJMP? {
      assert x.k.jump in k;
      ChainKept(c, c', x.k.jump, [x.k.jump]);
    }
    ChainEnds(c', f, x.f + l);
    DistinctJoin(here + t, x.f + l);
    DistinctJoin(here + t + (x.f + l), k);
  }

  lemma EmittedWord(c: seq<Ins>, w: set<nat>, i: Ins, c': seq<Ins>, w': set<nat>)
    requires !i.Jmp? && |c'| == |c| + 1 && Abs(c', w')[|c|] == i
    ensures c'[|c|] == i
  {
  }

  lemma SwapHolds(c: seq<Ins>, w: set<nat>, jpc: int, here: seq<nat>, d: Desc, e: ExpDesc)
    requires HoldsIn(c, w, jpc, here, d, e)
    ensures HoldsIn(c, w, jpc, here, Desc(d.k, d.f, d.t), CodeGen.ExpDesc(e.k, e.f, e.t))
  {
    HoldsParts(c, w, jpc, here, d, e);
    var t, f, x := e.t, e.f, JumpOf(e.k);
    DistinctParts(t + f, x);
    DistinctParts(t, f);
    DistinctParts(here + t, f);
    DistinctParts(here, t);
    assert forall j :: j in t || j in f ==> j in t + f;
    assert forall j :: j in here || j in t ==> j in here + t;
    DistinctJoin(here, f);
    DistinctJoin(here + f, t);
    DistinctJoin(here + f + t, x);
  }

  /** No word became, or ceased to be, a jump. */
  lemma SameJumps(c: seq<Ins>, c': seq<Ins>, k: Kind)
    requires AtEnd(c, k) && |c'| == |c| && forall j :: 0 <= j < |c| ==> (c'[j].Jmp? <==> c[j].Jmp?)
    ensures AtEnd(c', k)
  {
  }

  lemma OneJump(c: seq<Ins>, w: set<nat>, jpc: int, j: nat)
    requires Waits(c, w) && Chain(c, jpc, []) && Chain(c, j, [j]) && j in w
    ensures HoldsIn(c, w, jpc, [], Desc(CodeGen.VJMP(j), NO_JUMP, NO_JUMP), CodeGen.ExpDesc(CodeGen.VJMP(j), [], []))
  {
    assert [] + [] + [] + [j] == [j];
  }

  lemma MovedTwice(c: seq<Ins>, w: set<nat>, l: seq<nat>, c': seq<Ins>, w': set<nat>, l': seq<nat>, c'': seq<Ins>,
                   w'': set<nat>, l'': seq<nat>)
    requires Moved(c, w, l, c', w', []) && Moved(c', w', l', c'', w'', l'')
             && forall j :: j in l' ==> j in l || j >= |c|
    ensures Moved(c, w, l, c'', w'', l'')
  {
  }

  /** The lists alone. */
  function Closed(d: Desc): Desc { d.(k := CodeGen.VTRUE) }

  function Opened(e: ExpDesc): ExpDesc { e.(k := CodeGen.VTRUE) }

  lemma LeavesNone(c: seq<Ins>, w: set<nat>, jpc: int, here: seq<nat>, d: Desc, e: ExpDesc)
    requires HoldsIn(c, w, jpc, here, d, e)
    ensures Distinct(here + e.t + e.f + []) && Within(here + e.t + e.f + [], w)
  {
    HoldsParts(c, w, jpc, here, d, e);
    assert here + e.t + e.f + [] == here + e.t + e.f;
  }

  lemma LeavesJump(c: seq<Ins>, w: set<nat>, jpc: int, here: seq<nat>, d: Desc, e: ExpDesc)
    requires HoldsIn(c, w, jpc, here, d, e) && e.k.VJMP?
    ensures Distinct(here + e.t + e.f + [e.k.jump]) && Within(here + e.t + e.f + [e.k.jump], w)
  {
  }

  lemma LeavesJumps(c: seq<Ins>, w: set<nat>, pc: nat, d: Desc, e: ExpDesc, l: seq<nat>, h: seq<nat>)
    requires Chain(c, pc, l) && Within(l, w) && l == [pc] + h && Distinct(e.t + e.f) && Within(e.t, w) && Within(e.f, w)
    requires forall j :: j in e.t || j in e.f ==> j !in h && j != pc
    ensures Distinct([] + e.t + e.f + l) && Within([] + e.t + e.f + l, w)
  {
    ChainEnds(c, pc, l);
    assert [] + e.t + e.f == e.t + e.f;
    DistinctJoin(e.t + e.f, l);
  }

  lemma GoOnApart(h: seq<nat>, t: seq<nat>, f: seq<nat>, l: seq<nat>)
    requires Distinct(h + t + f + l)
    ensures Distinct(f + l) && Distinct(h + t) && Distinct(h + t + (f + l))
    ensures forall j :: j in f ==> j !in h && j !in t
    ensures forall j :: j in h || j in t ==> j !in f + l
  {
    assert h + t + f + l == (h + t) + (f + l);
    DistinctParts(h + t, f + l);
    assert forall j :: j in h || j in t ==> j in h + t;
    assert forall j :: j in f ==> j in f + l;
  }

  lemma GoOnApart2(h: seq<nat>, t: seq<nat>, f: seq<nat>, l: seq<nat>)
    requires Distinct(h + t + f + l)
    ensures Distinct(t + l) && Distinct(h + f) && Distinct(h + f + (t + l))
    ensures forall j :: j in t ==> j !in h && j !in f
    ensures forall j :: j in h || j in f ==> j !in t + l
  {
    assert h + t + f + l == h + (t + (f + l)) == (h + t) + (f + l) == (h + t + f) + l;
    DistinctParts(h, t + (f + l));
    DistinctParts(t, f + l);
    DistinctParts(f, l);
    assert forall j :: j in t || j in f + l ==> j in t + (f + l);
    assert forall j :: j in f || j in l ==> j in f + l;
    DistinctJoin(t, l);
    DistinctJoin(h, f);
    DistinctJoin(h + f, t + l);
  }

  lemma GoOnHolds(c: seq<Ins>, w: set<nat>, jpc: int, here: seq<nat>, d: Desc, e: ExpDesc)
    requires Waits(c, w) && Chain(c, jpc, here) && Within(here, w) && d.t == NO_JUMP && e.t == [] && Chain(c, d.f, e.f)
             && Within(e.f, w) && Distinct(here + e.f)
    ensures HoldsIn(c, w, jpc, here, Closed(d), Opened(e))
  {
    assert here + [] + e.f + [] == here + e.f;
  }

  lemma GoOnHolds2(c: seq<Ins>, w: set<nat>, jpc: int, here: seq<nat>, d: Desc, e: ExpDesc)
    requires Waits(c, w) && Chain(c, jpc, here) && Within(here, w) && d.f == NO_JUMP && e.f == [] && Chain(c, d.t, e.t)
             && Within(e.t, w) && Distinct(here + e.t)
    ensures HoldsIn(c, w, jpc, here, Closed(d), Opened(e))
  {
    assert here + e.t + [] + [] == here + e.t;
  }

  lemma DischargedVars(s: State, e: ExpDesc)
    ensures var (r, f) := CodeGen.DischargeVars(s, e);
            f.t == e.t && f.f == e.f && (f.k.VJMP? <==> e.k.VJMP?) && (f.k.VJMP? ==> f.k == e.k)
    ensures var f := CodeGen.DischargeVars(s, e).1; !f.k.VLOCAL? && !f.k.VUPVAL?
  {
  }

  lemma AnyRegKind(s: State, e: ExpDesc)
    ensures CodeGen.Exp2AnyReg(s, e).1.k.VNONRELOC?
  {
    hide CodeGen.LoadTo;
  }

  lemma AddKConsts(s: State, v: V)
    ensures CodeGen.AddK(s, v) == s.(consts := CodeGen.AddK(s, v).consts)
  {
  }

  lemma ChainEmpty(c: seq<Ins>)
    ensures Chain(c, NO_JUMP, [])
  {
  }

  lemma EmptyHead(c: seq<Ins>, h: int, l: seq<nat>)
    requires Chain(c, h, l)
    ensures h == NO_JUMP <==> l == []
  {
    assert l != [] ==> l[0] >= 0;
  }

  lemma JoinNothing(e: ExpDesc)
    ensures !e.k.VJMP? ==> WithJump(e) == e
  {
    assert e.t + [] == e.t;
  }

  lemma JoinApart(h: seq<nat>, t: seq<nat>, f: seq<nat>, x: seq<nat>)
    requires Distinct(t + f + x) && forall j :: j in t || j in f || j in x ==> j !in h
    ensures Distinct(t + x) && Distinct(t + x + f) && (forall j :: j in f ==> j !in t && j !in x)
  {
    DistinctParts(t + f, x);
    DistinctParts(t, f);
    assert forall j :: j in t || j in f ==> j in t + f;
    DistinctJoin(t, x);
    DistinctJoin(t + x, f);
  }

  /** Two lists that share no jump begin at the same place only if both are empty. */
  lemma HeadsDiffer(c: seq<Ins>, h: int, h': int, t: seq<nat>, f: seq<nat>)
    requires Chain(c, h, t) && Chain(c, h', f) && Distinct(t + f)
    ensures h == h' <==> t == f
    ensures h == h' ==> t == [] && f == []
  {
    DistinctParts(t, f);
    if t != [] && f != [] { assert t[0] in t && f[0] in f; }
  }

  lemma DischargedKind(s: State, e: ExpDesc, reg: nat)
    ensures var (r, f) := CodeGen.Discharge2Reg(s, e, reg);
            f.t == e.t && f.f == e.f && (f.k.VJMP? <==> e.k.VJMP?) && (f.k.VJMP? ==> f.k == e.k)
  {
  }

  lemma NoLists(c: seq<Ins>, w: set<nat>, jpc: int, here: seq<nat>, reg: nat)
    requires Waits(c, w) && Chain(c, jpc, here) && Within(here, w)
    ensures HoldsIn(c, w, jpc, here, Desc(CodeGen.VNONRELOC(reg), NO_JUMP, NO_JUMP),
                    CodeGen.ExpDesc(CodeGen.VNONRELOC(reg), [], []))
  {
    ChainEnds(c, jpc, here);
    assert here + [] + [] + [] == here;
  }

  /** What loading a value does to the lists. */
  lemma LoadedHolds(c: seq<Ins>, w: set<nat>, jpc: int, here: seq<nat>, c': seq<Ins>, w': set<nat>, jpc': int,
                    here': seq<nat>, d: Desc, e: ExpDesc)
    requires HoldsIn(c, w, jpc, here, d, e) && |c| <= |c'| && Waits(c', w')
    requires forall j :: j in w && j !in here ==> j in w' && j < |c'| && j < |c| && c'[j] == c[j]
    requires (jpc' == NO_JUMP && here' == [])
             || (jpc' == jpc && here' == here && w' == w && forall j :: j in w ==> j < |c'| && j < |c| && c'[j] == c[j])
    ensures HoldsIn(c', w', jpc', here', d, e)
  {
    if jpc' == jpc && here' == here && w' == w && forall j :: j in w ==> j < |c'| && j < |c| && c'[j] == c[j] {
      HoldsStill(c, w, jpc, here, c', d, e);
    } else {
      Survive(c, w, jpc, here, c', w', d, e);
    }
  }

  lemma AbsSet(c: seq<Ins>, waiting: set<nat>, i: nat, ins: Ins)
    requires Waits(c, waiting) && i < |c| && !c[i].Jmp? && !ins.Jmp?
    ensures Abs(c[i := ins], waiting) == Abs(c, waiting)[i := ins] && Waits(c[i := ins], waiting)
  {
  }

  lemma AbsInvert(c: seq<Ins>, waiting: set<nat>, j: nat)
    requires 1 <= j <= |c| && c[j - 1].Compare? && Waits(c, waiting)
    ensures Abs(c, waiting)[j - 1].Compare?
    ensures var d := c[j - 1 := c[j - 1].(cond := !c[j - 1].cond)];
            Abs(d, waiting) == CodeGen.InvertJump(Abs(c, waiting), j) && Waits(d, waiting)
  {
  }

  lemma AbsAppend(c: seq<Ins>, waiting: set<nat>, i: Ins)
    requires Waits(c, waiting) && !i.Jmp?
    ensures Abs(c + [i], waiting) == Abs(c, waiting) + [i] && Waits(c + [i], waiting)
  {
  }

  lemma AbsJump(c: seq<Ins>, waiting: set<nat>, h: int, l: seq<nat>)
    requires Waits(c, waiting) && Chain(c, h, l) && Within(l, waiting)
    ensures var d, w := c + [Jmp(NO_JUMP)], waiting + {|c|};
            && Abs(d, w) == Abs(c, waiting) + [Jmp(NO_JUMP)] && Waits(d, w)
            && Chain(d, h, l) && Chain(d, |c|, [|c|]) && Within([|c|] + l, w) && Distinct([|c|] + l)
  {
    hide Chain, Abs, Distinct;
    var d := c + [Jmp(NO_JUMP)];
    AbsMore(c, waiting);
    ChainKept(c, d, h, l);
    ChainEnds(c, h, l);
    ChainOne(d, |c|);
    assert forall j :: j in l ==> j != |c|;
    DistinctFront(|c|, l);
  }

  lemma AbsMore(c: seq<Ins>, waiting: set<nat>)
    requires Waits(c, waiting)
    ensures var d, w := c + [Jmp(NO_JUMP)], waiting + {|c|}; Abs(d, w) == Abs(c, waiting) + [Jmp(NO_JUMP)]
  {
  }

  lemma DistinctFront(x: nat, l: seq<nat>)
    requires Distinct(l) && x !in l
    ensures Distinct([x] + l)
  {
  }

  lemma ChainOne(c: seq<Ins>, j: nat)
    requires j < |c| && c[j] == Jmp(NO_JUMP)
    ensures Chain(c, j, [j])
  {
    var x := [j];
    assert Linked(c, x, 0);
  }

  lemma ListElement(c: seq<Ins>, l: seq<nat>, k: nat)
    requires k < |l| && Chain(c, Nth(l, 0), l)
    ensures l[k] < |c| && c[l[k]].Jmp? && GetJump(c, l[k]) == Nth(l, k + 1)
  {
    assert Linked(c, l, k);
  }

  lemma ElemsTail(l: seq<nat>)
    requires l != []
    ensures Elems(l) == {l[0]} + Elems(l[1..])
  {
    assert l == [l[0]] + l[1..];
  }
}
