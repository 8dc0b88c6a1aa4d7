/** `luaC_fullgc`: it terminates, and without finalizers it frees exactly the garbage. */
module GcFull {
  import opened GcState
  import opened GcLists
  import opened GcMark
  import opened GcPropagate
  import opened GcAtomic
  import opened GcInvariant
  import opened GcUpval
  import opened GcClose
  import opened GcCycle
  import opened GcSweep
  import opened GcMutator
  import opened GcExact

  // Termination

  function Rank(p: Phase): nat {
    match p
    case Propagate => 4
    case SweepString => 3
    case Sweep => 2
    case Finalize => 1
    case Pause => 0
  }

  function Unmarked(g: G): set<Id> { if g.phase == Propagate then Whites(g.heap) else {} }

  /** What the root list and the open upvalues still cost the sweep: a closed upvalue moves to the root list. */
  function RootWork(g: G): int { 2 * |g.uvhead| + |g.rootgc| - g.sweepgc }

  function Work(g: G): int {
    match g.phase
    case Propagate => |g.gray|
    case SweepString => |g.strt| - g.sweepstrgc
    case Sweep => RootWork(g)
    case Finalize => |g.tmudata|
    case Pause => 0
  }

  ghost predicate Progress(g: G, r: G) {
    && Work(g) >= 0
    && (|| Rank(r.phase) < Rank(g.phase)
        || (Rank(r.phase) == Rank(g.phase) && Unmarked(r) < Unmarked(g))
        || (Rank(r.phase) == Rank(g.phase) && Unmarked(r) == Unmarked(g) && Work(r) < Work(g)))
  }

  lemma {:induction false} WithoutLength(l: seq<Id>, x: Id)
    ensures |Without(l, x)| <= |l| && (x in l ==> |Without(l, x)| < |l|)
  {
    if l != [] { WithoutLength(l[1..], x); }
  }

  lemma {:induction false} KeepOpenLength(g: G, l: seq<Id>, uvs: seq<Id>)
    ensures |KeepOpen(g, l, uvs)| <= |uvs|
  {
    if uvs != [] { KeepOpenLength(g, l, uvs[1..]); }
  }

  lemma {:induction false} CloseWork(g: G, th: Id)
    requires Inv(g) && g.phase != Propagate
    ensures RootWork(Close(g, th, 0)) <= RootWork(g)
    decreases |OpenUpvals(g.heap, th)|
  {
    hide Inv, CloseFirst, UpvalsLinked;
    if OpenUpvals(g.heap, th) != [] {
      var uv := g.heap[th].body.openupval[0];
      assert UpvalsLinked(g.heap, g.uvhead) by { InvParts(g); }
      CloseFirstSweeps(g, th);
      CloseFirstSweep(g, th);
      assert uv in g.uvhead by { OpenInHead(g, uv); }
      WithoutLength(g.uvhead, uv);
      CloseFirstShrinks(g, th);
      CloseWork(CloseFirst(g, th), th);
    }
  }

  lemma OpenInHead(g: G, uv: Id)
    requires UpvalsLinked(g.heap, g.uvhead) && uv in g.heap && IsOpen(g.heap[uv].body)
    ensures uv in g.uvhead
  {
  }

  lemma KeepOrFreeWork(g: G)
    requires Inv(g) && g.phase == Sweep && g.sweepgc < |g.rootgc| && g.rootgc[g.sweepgc] in g.heap
    ensures RootWork(KeepOrFree(g)) < RootWork(g)
  {
    hide Inv, Close;
    var o := g.rootgc[g.sweepgc];
    if Dies(g, o) {
      CloseWork(g, o);
      assert o in Close(g, o, 0).rootgc by { StillLinked(g, o); }
      WithoutLength(Close(g, o, 0).rootgc, o);
    }
  }

  lemma StillLinked(g: G, o: Id)
    requires Inv(g) && g.phase == Sweep && o in g.heap && o in g.rootgc
    ensures o in Close(g, o, 0).rootgc
  {
    hide Inv, Close;
    if g.heap[o].body.Thread? { CloseAllFrame(g, o); } else { NothingToClose(g, o); }
  }

  lemma SweepOneWork(g: G)
    requires Inv(g) && g.phase == Sweep && g.sweepgc < |g.rootgc|
    ensures CanSweep(g) && RootWork(SweepOne(g)) < RootWork(g)
  {
    hide Inv, KeepOrFree;
    SweepUnder(g);
    var o := g.rootgc[g.sweepgc];
    if g.heap[o].body.Thread? {
      KeepOpenLength(g, g.heap[o].body.openupval, g.uvhead);
      SweepUpvalsKeepsInv(g, o);
      KeepOrFreeWork(SweepUpvals(g, o));
    } else {
      KeepOrFreeWork(g);
    }
  }

  lemma {:induction false} SweepSomeWork(g: G, n: nat)
    requires Inv(g) && g.phase == Sweep
    ensures RootWork(SweepSome(g, n)) <= RootWork(g)
    ensures n > 0 && g.sweepgc < |g.rootgc| ==> RootWork(SweepSome(g, n)) < RootWork(g)
    decreases n
  {
    hide Inv, SweepOne;
    if n > 0 && g.sweepgc < |g.rootgc| {
      SweepOneWork(g);
      SweepOneKeepsInv(g);
      SweepSomeWork(SweepOne(g), n - 1);
    }
  }

  lemma SweepProgress(g: G)
    requires Inv(g) && g.phase == Sweep
    ensures Progress(g, SingleStep(g))
  {
    hide SweepSome, Inv, SweepOne, KeepOrFree;
    SweepList(g);
    SweepSomeKeepsInv(g, GCSWEEPMAX);
    SweepSomeWork(g, GCSWEEPMAX);
    if g.sweepgc >= |g.rootgc| { assert SweepSome(g, GCSWEEPMAX) == g by { NothingToSweep(g, GCSWEEPMAX); } }
  }

  lemma NothingToSweep(g: G, n: nat)
    requires g.sweepgc >= |g.rootgc|
    ensures SweepSome(g, n) == g
  {
  }

  lemma SweepList(g: G)
    requires Inv(g)
    ensures g.phase == Sweep ==> g.sweepgc <= |g.rootgc|
    ensures g.phase == SweepString ==> g.sweepstrgc < |g.strt|
  {
  }

  lemma MarkProgress(g: G)
    requires Inv(g) && g.phase == Propagate
    ensures Progress(g, SingleStep(g))
  {
    hide Inv, PropagateMark, Stage6;
    if g.gray != [] { PropagateStepKeepsInv(g); PropagateLess(g); }
  }

  lemma PropagateLess(g: G)
    requires HasGray(g)
    ensures var r := PropagateMark(g);
            r.phase == g.phase && Whites(r.heap) <= Whites(g.heap)
                && (Whites(r.heap) == Whites(g.heap) ==> |r.gray| < |g.gray|)
  {
  }

  lemma FinalizeProgress(g: G)
    requires Inv(g) && g.phase == Finalize
    ensures Progress(g, SingleStep(g))
  {
    hide Inv, TakeUdata;
    if g.tmudata != [] {
      assert Linked(g) by { InvParts(g); }
      TmudataHead(g);
      TakeUdataIs(g);
    }
  }

  lemma StringProgress(g: G)
    requires Inv(g) && g.phase == SweepString
    ensures Progress(g, SingleStep(g))
  {
    hide Inv, SweptHeap, Survivors;
    SweepList(g);
  }

  /** Every step outside the pause comes nearer to it. */
  lemma StepProgress(g: G)
    requires Inv(g) && g.phase != Pause
    ensures Progress(g, SingleStep(g))
  {
    hide Inv, SingleStep, Progress;
    match g.phase
    case Propagate => MarkProgress(g);
    case SweepString => StringProgress(g);
    case Sweep => SweepProgress(g);
    case Finalize => FinalizeProgress(g);
  }

  /**
    A collector step as a run sees it, with the finalizer's argument: `GCTM` pushes the userdata it takes from
    `tmudata` on the stack of the running thread, from where the program can reach it again.
   */
  function Step(g: G): G {
    if g.phase == Finalize && g.tmudata != [] then PushValue(SingleStep(g), Ref(g.tmudata[0])) else SingleStep(g)
  }

  lemma FinalizerKeepsInv(g: G)
    requires Inv(g) && g.phase == Finalize && g.tmudata != []
    ensures Inv(Step(g))
  {
    hide Inv, TakeUdata, PushValue;
    SingleStepKeepsInv(g);
    TakenAlive(g);
    PushKeepsInv(SingleStep(g), Ref(g.tmudata[0]));
  }

  lemma TakenAlive(g: G)
    requires Inv(g) && g.phase == Finalize && g.tmudata != []
    ensures Alive(SingleStep(g), g.tmudata[0])
  {
    hide Safe, Colored, StringsLinked, UpvalsLinked, RootLinked, Insert, IndexOf;
    InvParts(g);
    TmudataHead(g);
    TakeUdataIs(g);
  }

  lemma StepKeepsInv(g: G)
    requires Inv(g)
    ensures Inv(Step(g))
  {
    hide Inv, SingleStep, PushValue;
    if g.phase == Finalize && g.tmudata != [] { FinalizerKeepsInv(g); } else { SingleStepKeepsInv(g); }
  }

  lemma PushFrame(g: G, v: Value)
    ensures var r := PushValue(g, v); r == g.(heap := r.heap)
  {
  }

  /** The call of a finalizer does not keep the cycle from ending. */
  lemma CycleProgress(g: G)
    requires Inv(g) && g.phase != Pause
    ensures Progress(g, Step(g))
  {
    hide Inv, SingleStep, PushValue;
    StepProgress(g);
    if g.phase == Finalize && g.tmudata != [] {
      PushFrame(SingleStep(g), Ref(g.tmudata[0]));
      FinalizerNext(g);
    }
  }

  lemma FinalizerNext(g: G)
    requires g.phase == Finalize && g.tmudata != []
    ensures SingleStep(g).phase == Finalize
  {
  }

  predicate Sweeping(g: G) { g.phase == SweepString || g.phase == Sweep }

  /** Single steps to the end of a pending sweep. */
  function FinishSweep(g: G): (r: G)
    requires Inv(g) && (Sweeping(g) || g.phase == Finalize)
    ensures Inv(r) && r.phase == Finalize
    decreases Rank(g.phase), Unmarked(g), Work(g)
  {
    if g.phase == Finalize then g
    else
      SingleStepKeepsInv(g);
      StepProgress(g);
      SweepNext(g);
      FinishSweep(SingleStep(g))
  }

  lemma SweepNext(g: G)
    requires Inv(g) && Sweeping(g)
    ensures Sweeping(SingleStep(g)) || SingleStep(g).phase == Finalize
  {
    if g.phase == Sweep { SweepSomeKeepsInv(g, GCSWEEPMAX); } else { SweepStringNext(g); }
  }

  lemma SweepStringNext(g: G)
    requires g.phase == SweepString
    ensures Sweeping(SingleStep(g))
  {
  }

  /** Steps to the end of the cycle. */
  function FinishCycle(g: G): (r: G)
    requires Inv(g)
    ensures Inv(r) && r.phase == Pause
    decreases Rank(g.phase), Unmarked(g), Work(g)
  {
    if g.phase == Pause then g
    else
      StepKeepsInv(g);
      CycleProgress(g);
      FinishCycle(Step(g))
  }

  /** A collection under way before its atomic step is given up: everything becomes white again. */
  function Reset(g: G): G {
    if g.phase == Pause || g.phase == Propagate then
      g.(sweepstrgc := 0, sweepgc := 0, gray := [], grayagain := [], weak := [], phase := SweepString)
    else g
  }

  lemma ResetKeepsInv(g: G)
    requires Inv(g)
    ensures Inv(Reset(g)) && Reset(g).phase != Pause && Reset(g).phase != Propagate
  {
    hide Linked, Tri, AllWhite, Safe;
    if g.phase == Pause || g.phase == Propagate {
      assert |g.strt| > 0 by { InvParts(g); }
      LinkedReset(g, Reset(g));
      SafeReset(g, Reset(g));
    }
  }

  lemma LinkedReset(g: G, r: G)
    requires Linked(g) && r.heap == g.heap && r.strt == g.strt && r.uvhead == g.uvhead && r.rootgc == g.rootgc
             && r.tmudata == g.tmudata && r.main == g.main
    ensures Linked(r)
  {
  }

  lemma SafeReset(g: G, r: G)
    requires Safe(g) && r.heap == g.heap && r.white == g.white && SameRoots(g, r)
    ensures Safe(r)
  {
    assert forall x :: Alive(r, x) <==> Alive(g, x);
    assert forall x :: IsRoot(r, x) <==> IsRoot(g, x);
  }

  function FullGc(g: G): (r: G)
    requires Inv(g)
    ensures Inv(r) && r.phase == Pause
  {
    ResetKeepsInv(g);
    var s := FinishSweep(Reset(g));
    MarkRootKeepsInv(s);
    FinishCycle(MarkRoot(s))
  }
}
