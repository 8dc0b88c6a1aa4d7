/** What emitting an instruction, a test or a jump does to runs of the code before it. */
module CodeGenRun {
  import opened Common
  import opened JumpCode
  import opened CodeGen

  ghost predicate Distinct(l: seq<nat>) {
    forall i, j :: 0 <= i < j < |l| ==> l[i] != l[j]
  }

  ghost predicate AllPending(c: seq<Ins>, l: seq<nat>) {
    forall j :: j in l ==> Pending(c, j)
  }

  lemma HasElement(l: seq<nat>)
    requires l != []
    ensures exists x :: x in l
  {
    assert l[0] in l;
  }

  lemma NoElements(l: seq<nat>)
    requires forall x :: x !in l
    ensures l == []
  {
    if l != [] { HasElement(l); }
  }

  function Control(i: Ins, reg: Option<nat>): Ins
    requires i.TestSet?
  {
    if reg.Some? && reg.value != i.b then TestSet(reg, i.b, i.c) else Test(i.b, i.c)
  }

  /** The word at `i` after a list was patched. */
  function PatchedAt(c: seq<Ins>, l: seq<nat>, vtarget: nat, reg: Option<nat>, dtarget: nat, i: nat): Ins
    requires i < |c|
  {
    if i in l then Jmp(if Carries(c, i) then vtarget else dtarget)
    else if i + 1 in l && Carries(c, i + 1) then Control(c[i], reg)
    else c[i]
  }

  lemma PatchOneKeeps(c: seq<Ins>, l: seq<nat>, vtarget: nat, reg: Option<nat>, dtarget: nat)
    requires l != [] && Distinct(l) && AllPending(c, l)
    ensures var d := PatchOne(c, l[0], vtarget, reg, dtarget);
            && AllPending(d, l[1..]) && Distinct(l[1..])
            && (forall j :: j in l[1..] ==> j != l[0] && j in l && (Carries(d, j) <==> Carries(c, j)))
            && forall i :: 0 <= i < |c| && i != l[0] && i + 1 != l[0] ==> d[i] == c[i]
  {
    assert forall j :: j in l[1..] ==> j in l;
    assert Pending(c, l[0]);
  }

  lemma {:induction false} PatchListAt(c: seq<Ins>, l: seq<nat>, vtarget: nat, reg: Option<nat>, dtarget: nat)
    requires Distinct(l) && AllPending(c, l)
    ensures forall i :: 0 <= i < |c| ==>
                          PatchList(c, l, vtarget, reg, dtarget)[i] == PatchedAt(c, l, vtarget, reg, dtarget, i)
    decreases |l|
  {
    if l != [] {
      var d := PatchOne(c, l[0], vtarget, reg, dtarget);
      PatchOneKeeps(c, l, vtarget, reg, dtarget);
      PatchListAt(d, l[1..], vtarget, reg, dtarget);
      assert l == [l[0]] + l[1..];
      assert Pending(c, l[0]);
      forall i | 0 <= i < |c|
        ensures PatchedAt(d, l[1..], vtarget, reg, dtarget, i) == PatchedAt(c, l, vtarget, reg, dtarget, i)
      {
        PatchedStep(c, d, l, vtarget, reg, dtarget, i);
      }
    }
  }

  lemma PatchedStep(c: seq<Ins>, d: seq<Ins>, l: seq<nat>, vtarget: nat, reg: Option<nat>, dtarget: nat, i: nat)
    requires l != [] && Distinct(l) && AllPending(c, l) && d == PatchOne(c, l[0], vtarget, reg, dtarget) && i < |c|
    ensures PatchedAt(d, l[1..], vtarget, reg, dtarget, i) == PatchedAt(c, l, vtarget, reg, dtarget, i)
  {
    assert l == [l[0]] + l[1..];
    assert i in l <==> i == l[0] || i in l[1..];
    assert i + 1 in l <==> i + 1 == l[0] || i + 1 in l[1..];
    assert l[0] !in l[1..];
    assert Pending(c, l[0]);
    if i in l { assert Pending(c, i); }
    if i + 1 in l { assert Pending(c, i + 1); }
  }

  /** Code whose pending jumps of `l` were fixed to its end, or patched within it, continues it. */
  lemma PatchedContinues(c: seq<Ins>, l: seq<nat>, vtarget: nat, reg: Option<nat>, dtarget: nat, more: seq<Ins>)
    requires WellFormed(c) && Distinct(l) && AllPending(c, l)
    ensures Continues(c, PatchList(c, l, vtarget, reg, dtarget) + more)
  {
    PatchListAt(c, l, vtarget, reg, dtarget);
    var d := PatchList(c, l, vtarget, reg, dtarget) + more;
    forall i | 0 <= i < |c|
      ensures SameAt(c, d, i)
    {
      assert d[i] == PatchedAt(c, l, vtarget, reg, dtarget, i);
      if i in l { assert Pending(c, i); }
      if i + 1 in l { assert Pending(c, i + 1) && OkAt(c, i); }
    }
  }

  /** Fixing jumps to the end of the code keeps it well formed. */
  lemma DischargedWellFormed(c: seq<Ins>, l: seq<nat>)
    requires WellFormed(c) && Distinct(l) && AllPending(c, l)
    ensures WellFormed(PatchList(c, l, |c|, None, |c|))
  {
    var d := PatchList(c, l, |c|, None, |c|);
    PatchListAt(c, l, |c|, None, |c|);
    forall i | 0 <= i < |d|
      ensures OkAt(d, i)
    {
      assert OkAt(c, i);
      PatchedOkAt(c, l, d, i);
    }
  }

  lemma PatchedOkAt(c: seq<Ins>, l: seq<nat>, d: seq<Ins>, i: nat)
    requires WellFormed(c) && AllPending(c, l) && |d| == |c| && i < |c|
    requires forall i :: 0 <= i < |c| ==> d[i] == PatchedAt(c, l, |c|, None, |c|, i)
    ensures OkAt(d, i)
  {
    assert OkAt(c, i);
    if i + 1 < |c| { assert d[i + 1] == PatchedAt(c, l, |c|, None, |c|, i + 1) && OkAt(c, i + 1); }
    if i in l {
      assert Pending(c, i);
      assert OkAt(c, |c| - 1) && d[|c| - 1] == PatchedAt(c, l, |c|, None, |c|, |c| - 1);
    } else if c[i].Jmp? && c[i].dest > i {
      var k := c[i].dest - 1;
      assert d[k] == PatchedAt(c, l, |c|, None, |c|, k);
      if k in l { assert Pending(c, k); }
      if k + 1 in l { assert Pending(c, k + 1); }
    }
  }

  /** Where a run of the code arrives when the jumps of `jpc` lead to its end. */
  predicate IsHere(jpc: seq<nat>, out: Out) { out.Fall? || out.j in jpc }

  lemma DischargedStores(c: seq<Ins>, l: seq<nat>, more: seq<Ins>, j: nat, r: Regs)
    requires WellFormed(c) && Distinct(l) && AllPending(c, l) && Ends(c, j)
    ensures var d := PatchList(c, l, |c|, None, |c|) + more; Stored(d, j, r) == Stored(c, j, r) == r
  {
    PatchListAt(c, l, |c|, None, |c|);
    var d := PatchList(c, l, |c|, None, |c|) + more;
    if j > 0 {
      assert d[j - 1] == PatchedAt(c, l, |c|, None, |c|, j - 1) && OkAt(c, j - 1) && OkAt(c, j);
      if j - 1 in l { assert Pending(c, j - 1); }
    }
  }

  /** Runs of the code followed by `more`: pending jumps to here and the end lead to `more`, other jumps leave. */
  lemma DischargedRun(m: Env, s: State, more: seq<Ins>, start: nat, r: Regs)
    requires WellFormed(s.code) && Distinct(s.jpc) && AllPending(s.code, s.jpc) && StartOk(s.code, start)
    ensures var out := RunAt(m, s.code, start, r);
            var d := DischargeJpc(s).code + more;
            && (out.Exit? ==> Ends(s.code, out.j) && start <= out.j)
            && RunAt(m, d, start, r) == if IsHere(s.jpc, out) then Run(m, d, |s.code|, out.r) else out
  {
    hide WellFormed;
    var c, n := s.code, |s.code|;
    var d := DischargeJpc(s).code + more;
    PatchedContinues(c, s.jpc, n, None, n, more);
    RunAtContinues(m, c, d, start, r);
    var out := RunAt(m, c, start, r);
    if out.Exit? {
      PatchListAt(c, s.jpc, n, None, n);
      DischargedStores(c, s.jpc, more, out.j, out.r);
      assert d[out.j] == PatchedAt(c, s.jpc, n, None, n, out.j);
    }
  }
}
