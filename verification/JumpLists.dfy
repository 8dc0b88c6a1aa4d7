/** Jump lists as `lcode.c` keeps them: threaded through the offsets of the jumps that wait for their target. */
module JumpLists {
  import opened Common
  import opened JumpCode
  import opened CodeGen
  import opened CodeGenRun

  /** `getjump`: the jump after this one in its list; a jump to itself ends it. */
  function GetJump(c: seq<Ins>, pc: nat): int
    requires pc < |c| && c[pc].Jmp?
  {
    if c[pc].dest == NO_JUMP then NO_JUMP else pc + 1 + c[pc].dest
  }

  function Nth(l: seq<nat>, i: nat): int { if i < |l| then l[i] else NO_JUMP }

  /** The list that begins at `h` consists of the jumps `l`. */
  ghost predicate Chain(c: seq<Ins>, h: int, l: seq<nat>) {
    && h == Nth(l, 0)
    && forall i :: 0 <= i < |l| ==> Linked(c, l, i)
  }

  predicate Linked(c: seq<Ins>, l: seq<nat>, i: nat)
    requires i < |l|
  {
    l[i] < |c| && c[l[i]].Jmp? && GetJump(c, l[i]) == Nth(l, i + 1)
  }

  /** An instruction with its offset made absolute; the links of waiting jumps are no targets. */
  function Absolute(i: Ins, pc: nat, waits: bool): Ins {
    if !i.Jmp? then i else if waits then Jmp(NO_JUMP) else Jmp(pc + 1 + i.dest)
  }

  ghost function Abs(c: seq<Ins>, waiting: set<nat>): (r: seq<Ins>)
    ensures |r| == |c|
    ensures forall i :: 0 <= i < |c| ==> r[i] == Absolute(c[i], i, i in waiting)
  {
    seq(|c|, i requires 0 <= i < |c| => Absolute(c[i], i, i in waiting))
  }

  ghost predicate Waits(c: seq<Ins>, waiting: set<nat>) {
    forall j :: j in waiting ==> j < |c| && c[j].Jmp?
  }

  ghost predicate Within(l: seq<nat>, w: set<nat>) {
    forall j :: j in l ==> j in w
  }

  lemma AbsCarries(c: seq<Ins>, waiting: set<nat>, j: nat)
    ensures Carries(Abs(c, waiting), j) <==> Carries(c, j)
    ensures Carries(c, j) ==> Abs(c, waiting)[j - 1] == c[j - 1]
  {
  }

  lemma ChainTail(c: seq<Ins>, h: int, l: seq<nat>)
    requires Chain(c, h, l) && l != []
    ensures h == l[0] && h < |c| && c[h].Jmp? && Chain(c, GetJump(c, h), l[1..])
  {
    assert Linked(c, l, 0);
    forall i | 0 <= i < |l[1..]|
      ensures Linked(c, l[1..], i)
    {
      assert Linked(c, l, i + 1);
    }
  }

  lemma ChainKept(c: seq<Ins>, d: seq<Ins>, h: int, l: seq<nat>)
    requires Chain(c, h, l) && |c| <= |d| && forall j :: j in l && j < |c| ==> d[j] == c[j]
    ensures Chain(d, h, l)
  {
    forall i | 0 <= i < |l|
      ensures Linked(d, l, i)
    {
      assert Linked(c, l, i) && l[i] in l;
    }
  }

  /** A list has an end: no jump of it is reached twice. */
  lemma {:induction false} ChainEnds(c: seq<Ins>, h: int, l: seq<nat>)
    requires Chain(c, h, l)
    ensures Distinct(l)
    decreases |l|
  {
    if l != [] {
      ChainTail(c, h, l);
      ChainEnds(c, GetJump(c, h), l[1..]);
      ChainFresh(c, l);
      assert l == [l[0]] + l[1..];
      forall i, j | 0 <= i < j < |l|
        ensures l[i] != l[j]
      {
        if i > 0 { assert l[i] == l[1..][i - 1] && l[j] == l[1..][j - 1]; } else { assert l[j] in l[1..]; }
      }
    }
  }

  /** The same jump twice would give lists of two lengths from one place. */
  lemma ChainFresh(c: seq<Ins>, l: seq<nat>)
    requires l != [] && Chain(c, l[0], l)
    ensures l[0] !in l[1..]
  {
    if l[0] in l[1..] {
      var k :| 1 <= k < |l| && l[k] == l[0];
      ChainSuffix(c, l, k);
      ChainLength(c, l[0], l, l[k..]);
    }
  }

  lemma ChainSuffix(c: seq<Ins>, l: seq<nat>, k: nat)
    requires k < |l| && Chain(c, l[0], l)
    ensures Chain(c, l[k], l[k..])
  {
    forall i | 0 <= i < |l[k..]|
      ensures Linked(c, l[k..], i)
    {
      assert Linked(c, l, k + i);
    }
  }

  lemma {:induction false} ChainLength(c: seq<Ins>, h: int, a: seq<nat>, b: seq<nat>)
    requires Chain(c, h, a) && Chain(c, h, b)
    ensures |a| == |b|
    decreases |a|
  {
    if a != [] && b != [] {
      ChainTail(c, h, a);
      ChainTail(c, h, b);
      ChainLength(c, GetJump(c, h), a[1..], b[1..]);
    }
  }

  // What the list operations do to the code

  /** `fixjump` on a waiting jump that stays in a list. */
  lemma LinkAbs(c: seq<Ins>, waiting: set<nat>, j: nat, next: int)
    requires Waits(c, waiting) && j in waiting
    ensures var d := c[j := Jmp(next - (j + 1))]; Waits(d, waiting) && Abs(d, waiting) == Abs(c, waiting)
  {
  }

  lemma ConcatChain(c: seq<Ins>, a: seq<nat>, b: seq<nat>)
    requires Chain(c, Nth(a, 0), a) && Chain(c, Nth(b, 0), b) && Distinct(a + b) && a != [] && b != []
             && a[|a| - 1] < |c|
    ensures Chain(c[a[|a| - 1] := Jmp(b[0] as int - (a[|a| - 1] + 1))], a[0], a + b)
  {
    var z, l := a[|a| - 1], a + b;
    var d := c[z := Jmp(b[0] as int - (z + 1))];
    forall i | 0 <= i < |l|
      ensures Linked(d, l, i)
    {
      assert l[|a| - 1] == z && l[|a|] == b[0];
      if i < |a| { assert Linked(c, a, i); } else { assert Linked(c, b, i - |a|); }
    }
  }

  /** One jump of a list is given its target, and its control the register. */
  ghost predicate Patches(c: seq<Ins>, d: seq<Ins>, j: nat, vtarget: nat, reg: Option<nat>, dtarget: nat) {
    && j < |c| == |d|
    && d[j] == Jmp((if Carries(c, j) then vtarget else dtarget) - (j + 1))
    && (Carries(c, j) ==> d[j - 1] == Control(c[j - 1], reg))
    && forall i :: 0 <= i < |c| && i != j && (i + 1 != j || !Carries(c, j)) ==> d[i] == c[i]
  }

  lemma PatchesAbs(c: seq<Ins>, d: seq<Ins>, waiting: set<nat>, j: nat, vtarget: nat, reg: Option<nat>, dtarget: nat)
    requires Waits(c, waiting) && j in waiting && Patches(c, d, j, vtarget, reg, dtarget)
    ensures Abs(d, waiting - {j}) == PatchOne(Abs(c, waiting), j, vtarget, reg, dtarget)
  {
    AbsCarries(c, waiting, j);
    var a, b := Abs(d, waiting - {j}), PatchOne(Abs(c, waiting), j, vtarget, reg, dtarget);
    forall i | 0 <= i < |c|
      ensures a[i] == b[i]
    {
      assert i in waiting - {j} <==> i in waiting && i != j;
    }
  }

  /** The other waiting jumps are as they were. */
  lemma PatchesOthers(c: seq<Ins>, d: seq<Ins>, waiting: set<nat>, j: nat, vtarget: nat, reg: Option<nat>, dtarget: nat)
    requires Waits(c, waiting) && j in waiting && Patches(c, d, j, vtarget, reg, dtarget)
    ensures Waits(d, waiting - {j}) && forall i :: i in waiting && i != j ==> d[i] == c[i]
  {
    forall i | i in waiting && i != j
      ensures d[i] == c[i]
    {
      if i + 1 == j { assert c[i].Jmp?; }
    }
  }

  /** One step of `patchlistaux`. */
  lemma PatchStep(c: seq<Ins>, d: seq<Ins>, waiting: set<nat>, l: seq<nat>, vtarget: nat, reg: Option<nat>,
                  dtarget: nat)
    requires Waits(c, waiting) && l != [] && Chain(c, l[0], l) && Distinct(l) && Within(l, waiting)
    requires Patches(c, d, l[0], vtarget, reg, dtarget)
    ensures Waits(d, waiting - {l[0]}) && Within(l[1..], waiting - {l[0]}) && Distinct(l[1..])
    ensures l[0] < |c| && c[l[0]].Jmp? && Chain(d, GetJump(c, l[0]), l[1..])
    ensures Abs(d, waiting - {l[0]}) == PatchOne(Abs(c, waiting), l[0], vtarget, reg, dtarget)
    ensures forall i :: i in waiting && i != l[0] ==> d[i] == c[i]
  {
    hide Abs, PatchOne, Chain;
    var j := l[0];
    ChainTail(c, j, l);
    PatchesAbs(c, d, waiting, j, vtarget, reg, dtarget);
    PatchesOthers(c, d, waiting, j, vtarget, reg, dtarget);
    assert forall x :: x in l[1..] ==> x in l && x != j;
    ChainKept(c, d, GetJump(c, j), l[1..]);
  }

  lemma RemoveStep(c: seq<Ins>, waiting: set<nat>, j: nat)
    requires Waits(c, waiting) && j in waiting
    ensures var d := if Carries(c, j) then c[j - 1 := Test(c[j - 1].b, c[j - 1].c)] else c;
            Waits(d, waiting) && Abs(d, waiting) == RemoveValue(Abs(c, waiting), j)
                && forall i :: i in waiting ==> d[i] == c[i]
  {
    AbsCarries(c, waiting, j);
  }
}
