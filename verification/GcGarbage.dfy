/** The sweep frees the dead and nothing else, so a full collection leaves exactly what is to be kept. */
module GcGarbage {
  import opened GcState
  import opened GcLists
  import opened GcMark
  import opened GcPropagate
  import opened GcAtomic
  import opened GcClear
  import opened GcInvariant
  import opened GcUpval
  import opened GcClose
  import opened GcCycle
  import opened GcSweep
  import opened GcMutator
  import opened GcBound
  import opened GcExact
  import opened GcFull

  /** Nothing but strings and the main thread is fixed. */
  ghost predicate StringsFixed(g: G) {
    && g.main in g.heap && g.heap[g.main].body.Thread?
    && forall o :: o in g.heap && g.heap[o].fixed ==> g.heap[o].body.String? || o == g.main
  }

  predicate Fixed(g: G, o: Id) { o in g.heap && g.heap[o].fixed }

  ghost predicate SameFixed(g: G, r: G) { forall o :: Fixed(r, o) <==> Fixed(g, o) }

  lemma InvFixed(g: G)
    requires Inv(g)
    ensures StringsFixed(g)
  {
    hide StringsLinked, UpvalsLinked;
  }

  /** What the program sees of an object stays the same; an upvalue may be closed. */
  ghost predicate SameContents(h: Heap, h': Heap, o: Id) {
    && o in h && o in h'
    && match h[o].body
       case Upval(loc) => h'[o].body.Upval? && UpvalValue(h', h'[o].body.loc) == UpvalValue(h, loc)
       case Thread(gt, stack, _) => h'[o].body.Thread? && h'[o].body.gt == gt && h'[o].body.stack == stack
       case _ => h'[o].body == h[o].body
  }

  /** Only dead objects that are not fixed go; what stays keeps its contents, and only fixed objects come to life. */
  ghost predicate Sweeps(g: G, r: G) {
    && SameRoots(g, r) && r.white == g.white
    && (forall o :: Alive(g, o) ==> Alive(r, o))
    && (forall o :: Alive(r, o) ==> Alive(g, o) || Fixed(g, o))
    && (forall o :: Fixed(g, o) ==> Fixed(r, o))
    && (forall o :: o in r.heap ==>
                      o in g.heap && r.heap[o].fixed == g.heap[o].fixed && SameContents(g.heap, r.heap, o))
  }

  lemma SweepsTransitive(a: G, b: G, c: G)
    requires Sweeps(a, b) && Sweeps(b, c)
    ensures Sweeps(a, c)
  {
    forall o | o in c.heap
      ensures SameContents(a.heap, c.heap, o)
    {
      assert SameContents(a.heap, b.heap, o) && SameContents(b.heap, c.heap, o);
    }
  }

  lemma BucketSweeps(g: G, j: nat)
    requires StringsFixed(g) && Linked(g) && j < |g.strt|
    ensures Sweeps(g, SweepBucket(g, j))
  {
    hide Linked, Survivors;
    var r := SweepBucket(g, j);
    BucketOfStrings(g, j);
    SweepBucketLinked(g, j);
    forall o | o in r.heap
      ensures SameContents(g.heap, r.heap, o)
    {
      if g.heap[o].body.Upval? { SweptUpvalValue(g, r, g.heap[o].body.loc); }
    }
  }

  lemma BucketOfStrings(g: G, j: nat)
    requires Linked(g) && j < |g.strt|
    ensures forall o :: o in g.strt[j] ==> o in g.heap && g.heap[o].body.String?
  {
  }

  lemma SweptUpvalsAre(g: G, th: Id)
    requires StringsFixed(g) && UpvalsLinked(g.heap, g.uvhead) && th in g.heap && g.heap[th].body.Thread?
    ensures forall o :: o in g.heap[th].body.openupval ==> o in g.heap && IsOpen(g.heap[o].body) && !g.heap[o].fixed
  {
    hide UpvalsLinked;
    OpenOf(g, th);
  }

  lemma UpvalsSweeps(g: G, th: Id)
    requires StringsFixed(g) && UpvalsLinked(g.heap, g.uvhead) && th in g.heap && g.heap[th].body.Thread?
    ensures th !in g.heap[th].body.openupval && Sweeps(g, SweepUpvals(g, th))
  {
    hide UpvalsLinked, StringsFixed, Survivors, KeepOpen, SweepUpvals;
    SweptUpvalsAre(g, th);
    SweepUpvalsIs(g, th);
    var r := SweepUpvals(g, th);
    forall o | o in r.heap
      ensures SameContents(g.heap, r.heap, o)
    {
      if g.heap[o].body.Upval? { ThreadsSame(g.heap, r.heap, g.heap[o].body.loc); }
    }
  }

  lemma ThreadsSame(h: Heap, h': Heap, loc: Loc)
    requires forall o :: o in h && h[o].body.Thread? ==>
                           o in h' && h'[o].body.Thread? && h'[o].body.stack == h[o].body.stack
    requires forall o :: o in h' ==> o in h && (h'[o].body.Thread? <==> h[o].body.Thread?)
    ensures UpvalValue(h', loc) == UpvalValue(h, loc)
  {
  }

  lemma CloseFirstKeeps(g: G, th: Id)
    requires UpvalsLinked(g.heap, g.uvhead) && OpenUpvals(g.heap, th) != [] && g.phase != Propagate && StringsFixed(g)
    ensures Sweeps(g, CloseFirst(g, th))
  {
    hide UpvalsLinked, CloseFirst;
    CloseFirstSweeps(g, th);
    var r, uv := CloseFirst(g, th), g.heap[th].body.openupval[0];
    forall o | o in r.heap
      ensures SameContents(g.heap, r.heap, o)
    {
      if g.heap[o].body.Upval? { CloseUpvalValues(g.heap, r.heap, th, uv, g.heap[o].body.loc); }
    }
  }

  lemma {:induction false} CloseSweeps(g: G, th: Id)
    requires Inv(g) && g.phase != Propagate
    ensures Sweeps(g, Close(g, th, 0))
    decreases |OpenUpvals(g.heap, th)|
  {
    hide Inv, CloseFirst, UpvalsLinked, Sweeps;
    if OpenUpvals(g.heap, th) != [] {
      assert UpvalsLinked(g.heap, g.uvhead) by { InvParts(g); }
      InvFixed(g);
      CloseFirstKeeps(g, th);
      CloseFirstSweep(g, th);
      CloseFirstFrame(g, th);
      CloseFirstShrinks(g, th);
      CloseSweeps(CloseFirst(g, th), th);
      SweepsTransitive(g, CloseFirst(g, th), Close(g, th, 0));
    } else {
      SweepsSelf(g);
    }
  }

  lemma SweepsSelf(g: G)
    ensures Sweeps(g, g)
  {
  }

  /** Freeing a dead object whose upvalues are closed. */
  lemma FreeSweeps(g: G, o: Id)
    requires Dead(g, o) && !Fixed(g, o)
             && forall uv :: uv in g.heap && IsOpen(g.heap[uv].body) ==> g.heap[uv].body.loc.th != o
    ensures Sweeps(g, g.(heap := g.heap - {o}, rootgc := Without(g.rootgc, o)))
  {
  }

  lemma FreeObjSweeps(g: G, o: Id)
    requires Inv(g) && g.phase == Sweep && Dies(g, o) && o in g.rootgc
    ensures Sweeps(g, FreeObj(g, o))
  {
    hide Inv, Close, Sweeps, UpvalsLinked, StringsLinked, RootLinked, Without;
    CloseKeepsInv(g, o, 0);
    CloseSweeps(g, o);
    var c := Close(g, o, 0);
    StillDies(g, o);
    InvParts(c);
    FreeUpvals(c.heap, c.uvhead, o);
    FreeSweeps(c, o);
    SweepsTransitive(g, c, FreeObj(g, o));
  }

  lemma StillDies(g: G, o: Id)
    requires Inv(g) && g.phase == Sweep && Dies(g, o) && o in g.rootgc
    ensures var c := Close(g, o, 0);
            Dead(c, o) && !Fixed(c, o) && OpenUpvals(c.heap, o) == [] && !IsOpen(c.heap[o].body)
  {
    hide Inv, Close;
    CloseKeepsInv(g, o, 0);
    if g.heap[o].body.Thread? {
      CloseAllFrame(g, o);
    } else {
      NothingToClose(g, o);
      NotOpen(g, o);
    }
  }

  lemma NotOpen(g: G, o: Id)
    requires Inv(g) && o in g.rootgc
    ensures o in g.heap && !IsOpen(g.heap[o].body)
  {
  }

  lemma KeepOrFreeSweeps(g: G)
    requires Inv(g) && g.phase == Sweep && StringsFixed(g) && g.sweepgc < |g.rootgc| && g.rootgc[g.sweepgc] in g.heap
    ensures Sweeps(g, KeepOrFree(g))
  {
    hide Inv, FreeObj;
    var o := g.rootgc[g.sweepgc];
    assert o in g.rootgc;
    if Dies(g, o) {
      FreeObjSweeps(g, o);
    } else {
      assert Alive(g, o) by { SweepUnder(g); }
      var r := KeepOrFree(g);
      assert SameButColor(g.heap, r.heap);
      forall x | x in r.heap
        ensures SameContents(g.heap, r.heap, x)
      {
        if g.heap[x].body.Upval? { UpvalValueSame(g.heap, r.heap, g.heap[x].body.loc); }
      }
    }
  }

  lemma MainAlive(g: G)
    requires Inv(g)
    ensures Alive(g, g.main)
  {
    assert IsRoot(g, g.main);
  }

  lemma FixedStays(g: G, r: G)
    requires StringsFixed(g) && Sweeps(g, r) && Alive(g, g.main)
    ensures StringsFixed(r)
  {
    assert Alive(r, r.main) && SameContents(g.heap, r.heap, g.main);
  }

  lemma SweepOneSweeps(g: G)
    requires Inv(g) && g.phase == Sweep && StringsFixed(g) && g.sweepgc < |g.rootgc|
    ensures CanSweep(g) && Sweeps(g, SweepOne(g)) && StringsFixed(SweepOne(g))
  {
    hide Inv, KeepOrFree, SweepUpvals, UpvalsLinked, Sweeps, StringsFixed;
    SweepUnder(g);
    MainAlive(g);
    var o := g.rootgc[g.sweepgc];
    if g.heap[o].body.Thread? {
      assert UpvalsLinked(g.heap, g.uvhead) by { InvParts(g); }
      UpvalsSweeps(g, o);
      var n := SweepUpvals(g, o);
      FixedStays(g, n);
      SweepUpvalsKeepsInv(g, o);
      assert n.phase == Sweep && n.sweepgc < |n.rootgc| && n.rootgc[n.sweepgc] in n.heap by { UpvalsUnder(g, o); }
      KeepOrFreeSweeps(n);
      SweepsTransitive(g, n, SweepOne(g));
    } else {
      KeepOrFreeSweeps(g);
    }
    FixedStays(g, SweepOne(g));
  }

  lemma UpvalsUnder(g: G, o: Id)
    requires o in g.heap && g.heap[o].body.Thread? && o !in g.heap[o].body.openupval
    ensures var n := SweepUpvals(g, o);
            n.phase == g.phase && n.sweepgc == g.sweepgc && n.rootgc == g.rootgc && o in n.heap
  {
  }

  lemma {:induction false} SweepSomeSweeps(g: G, n: nat)
    requires Inv(g) && g.phase == Sweep && StringsFixed(g)
    ensures Sweeps(g, SweepSome(g, n)) && StringsFixed(SweepSome(g, n))
    decreases n
  {
    hide Inv, SweepOne, Sweeps, StringsFixed;
    if n > 0 && CanSweep(g) {
      SweepOneSweeps(g);
      SweepOneKeepsInv(g);
      SweepSomeSweeps(SweepOne(g), n - 1);
      SweepsTransitive(g, SweepOne(g), SweepSome(g, n));
    } else {
      SweepsSelf(g);
    }
  }

  lemma SameHeapSweeps(g: G, r: G, s: G)
    requires Sweeps(g, r) && s.heap == r.heap && s.white == r.white && SameRoots(r, s)
    ensures Sweeps(g, s)
  {
    assert forall o :: Alive(s, o) <==> Alive(r, o);
  }

  lemma FixedSame(r: G, s: G)
    requires StringsFixed(r) && s.heap == r.heap && s.main == r.main
    ensures StringsFixed(s)
  {
  }

  /** A step of the sweep. */
  lemma StepSweeps(g: G)
    requires Inv(g) && Sweeping(g) && StringsFixed(g)
    ensures Sweeps(g, SingleStep(g)) && StringsFixed(SingleStep(g))
  {
    hide Inv, SweepSome, SweepBucket, Sweeps, StringsFixed, Linked;
    MainAlive(g);
    if g.phase == Sweep {
      SweepSomeSweeps(g, GCSWEEPMAX);
      SameHeapSweeps(g, SweepSome(g, GCSWEEPMAX), SingleStep(g));
    } else {
      SweepList(g);
      InvParts(g);
      BucketSweeps(g, g.sweepstrgc);
      SameHeapSweeps(g, SweepBucket(g, g.sweepstrgc), SingleStep(g));
    }
    FixedStays(g, SingleStep(g));
  }

  lemma {:induction false} FinishSweepSweeps(g: G)
    requires Inv(g) && (Sweeping(g) || g.phase == Finalize) && StringsFixed(g)
    ensures Sweeps(g, FinishSweep(g)) && StringsFixed(FinishSweep(g))
    decreases Rank(g.phase), Unmarked(g), Work(g)
  {
    hide Inv, SingleStep, Sweeps, StringsFixed, Work;
    if g.phase == Finalize {
      SweepsSelf(g);
    } else {
      SingleStepKeepsInv(g);
      StepProgress(g);
      SweepNext(g);
      StepSweeps(g);
      FinishSweepSweeps(SingleStep(g));
      SweepsTransitive(g, SingleStep(g), FinishSweep(g));
    }
  }

  // Sweeping does not change what is to be kept

  lemma SweepsSees(g: G, r: G, o: Id, x: Id)
    requires Sweeps(g, r) && Alive(g, o)
    ensures o in g.heap && o in r.heap && (Edge(r.heap, true, o, x) <==> Edge(g.heap, true, o, x))
  {
    assert Alive(r, o) && SameContents(g.heap, r.heap, o);
  }

  lemma SweepsReaches(g: G, r: G, x: Id)
    requires Sweeps(g, r) && Safe(g) && Safe(r)
    ensures Reachable(g, true, x) <==> Reachable(r, true, x)
  {
    hide Sweeps, Safe, Edge, IsRoot, Reachable;
    if Reachable(g, true, x) { SweepsReach(g, r, x); }
    if Reachable(r, true, x) { SweepsReachBack(g, r, x); }
  }

  lemma SweepsReach(g: G, r: G, x: Id)
    requires Sweeps(g, r) && Safe(g) && Reachable(g, true, x)
    ensures Reachable(r, true, x)
  {
    hide Sees, SeesStrongly, Reachable, SameContents;
    var s := set o | o in g.heap && Alive(g, o) && Reachable(r, true, o);
    forall y | IsRoot(g, y)
      ensures y in s
    {
      assert IsRoot(r, y);
      ReachableExtends(r, true, y, y);
    }
    forall y, z | y in s && Edge(g.heap, true, y, z)
      ensures z in s
    {
      SweepsSees(g, r, y, z);
      ReachableExtends(r, true, y, z);
    }
    ReachableStaysIn(g, true, s);
  }

  lemma SweepsReachBack(g: G, r: G, x: Id)
    requires Sweeps(g, r) && Safe(g) && Safe(r) && Reachable(r, true, x)
    ensures Reachable(g, true, x)
  {
    hide Sees, SeesStrongly, Reachable, SameContents;
    var s := set o | o in r.heap && Alive(r, o) && Reachable(g, true, o);
    forall y | IsRoot(r, y)
      ensures y in s
    {
      assert IsRoot(g, y);
      ReachableExtends(g, true, y, y);
    }
    forall y, z | y in s && Edge(r.heap, true, y, z)
      ensures z in s
    {
      ReachableAlive(g, true, y);
      SweepsSees(g, r, y, z);
      ReachableExtends(g, true, y, z);
    }
    ReachableStaysIn(r, true, s);
  }

  lemma KeptAlive(g: G, o: Id)
    requires Safe(g) && Kept(g, o)
    ensures Alive(g, o)
  {
    hide Reachable;
    if Reachable(g, true, o) {
      ReachableAlive(g, true, o);
    } else {
      var t :| Reachable(g, true, t) && HoldsString(g, t, o);
      ReachableAlive(g, true, t);
      assert Refers(g.heap, t, o);
    }
  }

  lemma LostSame(g: G, r: G, t: Id, n: Node)
    requires Sweeps(g, r) && Safe(g) && Safe(r) && Alive(g, t) && g.heap[t].body.Table? && n in g.heap[t].body.nodes
             && !n.val.Nil?
    ensures Lost(g, n.key) <==> Lost(r, n.key)
  {
    hide Reachable;
    if n.key.Ref? {
      assert Refers(g.heap, t, n.key.id);
      assert Alive(r, n.key.id) && SameContents(g.heap, r.heap, n.key.id);
      SweepsReaches(g, r, n.key.id);
    }
  }

  lemma HoldsSame(g: G, r: G, t: Id, o: Id)
    requires Sweeps(g, r) && Safe(g) && Safe(r) && Alive(g, t)
    ensures HoldsString(r, t, o) <==> HoldsString(g, t, o)
  {
    hide Reachable, Sees, Lost, Safe;
    assert Alive(r, t) && SameContents(g.heap, r.heap, t);
    if g.heap[t].body.Table? {
      forall n | n in g.heap[t].body.nodes && !n.val.Nil?
        ensures Lost(g, n.key) <==> Lost(r, n.key)
      {
        LostSame(g, r, t, n);
      }
    }
  }

  /** A sweep neither adds to nor takes from what is to be kept. */
  lemma SweepsKept(g: G, r: G, o: Id)
    requires Sweeps(g, r) && Safe(g) && Safe(r)
    ensures Kept(r, o) <==> Kept(g, o)
  {
    hide Sweeps, Safe, Reachable, HoldsString;
    SweepsReaches(g, r, o);
    if Kept(g, o) { KeptAlive(g, o); SweepsAlive(g, r, o); }
    if Kept(r, o) { KeptAlive(r, o); SweepsAlive(g, r, o); }
    if StringHeld(g, o) {
      var t :| Reachable(g, true, t) && HoldsString(g, t, o);
      SweepsReaches(g, r, t);
      ReachableAlive(g, true, t);
      HoldsSame(g, r, t, o);
    }
    if StringHeld(r, o) {
      var t :| Reachable(r, true, t) && HoldsString(r, t, o);
      SweepsReaches(g, r, t);
      ReachableAlive(g, true, t);
      HoldsSame(g, r, t, o);
    }
  }

  lemma SweepsAlive(g: G, r: G, o: Id)
    requires Sweeps(g, r)
    ensures Alive(g, o) ==> Alive(r, o)
    ensures o in r.heap ==> o in g.heap && (r.heap[o].body.String? <==> g.heap[o].body.String?)
    ensures Alive(g, o) || Fixed(g, o) <==> Alive(r, o) || Fixed(r, o)
  {
    if o in r.heap { assert SameContents(g.heap, r.heap, o); }
  }

  // The whole cycle

  lemma RestIsAlive(r: G)
    requires Inv(r) && (r.phase == Finalize || r.phase == Pause)
    ensures forall o :: o in r.heap <==> Alive(r, o)
  {
    hide Linked;
    FinalizeParts(r);
    WhiteNoneDead(r);
  }

  /** From the flip on, a cycle only frees what is dead. */
  lemma {:induction false} SweepToPause(g: G)
    requires Inv(g) && g.phase != Propagate && g.tmudata == [] && StringsFixed(g)
    ensures Sweeps(g, FinishCycle(g)) && forall o :: o in FinishCycle(g).heap <==> Alive(g, o) || Fixed(g, o)
    decreases Rank(g.phase), Unmarked(g), Work(g)
  {
    hide Inv, SingleStep, Sweeps, StringsFixed, Work;
    if g.phase == Pause {
      SweepsSelf(g);
      RestIsAlive(g);
    } else {
      var n := SingleStep(g);
      NextCycle(g);
      StepProgress(g);
      if g.phase == Finalize {
        PauseStep(g);
        SweepsSelf(g);
        SameHeapSweeps(g, g, n);
        FixedSame(g, n);
      } else {
        StepSweeps(g);
        SweepNext(g);
        SweepsRoots(g, n);
      }
      SweepToPause(n);
      SweepsTransitive(g, n, FinishCycle(g));
      forall o
        ensures o in FinishCycle(g).heap <==> Alive(g, o) || Fixed(g, o)
      {
        SweepsAlive(g, n, o);
      }
    }
  }

  lemma SweepsRoots(g: G, r: G)
    requires Sweeps(g, r)
    ensures r.tmudata == g.tmudata
  {
  }

  lemma PauseStep(g: G)
    requires g.phase == Finalize && g.tmudata == []
    ensures SingleStep(g) == g.(phase := Pause)
  {
  }

  /** While marking: bounded by what `g0` reaches, and otherwise as `g0`. */
  ghost predicate Cycling(g0: G, g: G) {
    && Inv(g) && g.phase == Propagate && NoFinalizers(g) && StringsFixed(g) && SameFixed(g0, g) && SameRoots(g0, g)
    && Bounded(g0.heap, g, ReachSet(g0))
  }

  lemma CyclingStep(g0: G, g: G)
    requires Cycling(g0, g) && g.gray != [] && ClosedUnder(g0.heap, ReachSet(g0))
    ensures HasGray(g) && SingleStep(g) == PropagateMark(g) && Cycling(g0, PropagateMark(g))
  {
    hide Inv, ClosedUnder, SameStrong, Tri, NoDangling, PropagateMark, ReachSet;
    PropagateStepKeepsInv(g);
    var r := PropagateMark(g);
    MarkPhaseFacts(g);
    PropagateBounded(g0.heap, g, ReachSet(g0), false, Elems(g.tmudata));
    PropagateGlobals(g);
    StrongTransitive3(g0.heap, g, r);
    NoFinalizersSame(g, r);
    PropagateShape(g, false, Elems(g.tmudata));
    ShapeFixed(g, r);
  }

  lemma PropagateGlobals(g: G)
    requires HasGray(g)
    ensures SameRoots(g, PropagateMark(g)) && PropagateMark(g).phase == g.phase
  {
  }

  lemma ShapeFixed(g: G, r: G)
    requires StringsFixed(g) && SameShape(g.heap, r.heap) && r.main == g.main
    ensures StringsFixed(r) && SameFixed(g, r)
  {
  }

  lemma AtomicKeepsFixed(g: G)
    requires Inv(g) && g.phase == Propagate && g.gray == [] && StringsFixed(g) && NoFinalizers(g)
    requires Stage5(g).tmudata == []
    ensures StringsFixed(Atomic(g)) && SameFixed(g, Atomic(g)) && Atomic(g).tmudata == []
            && Atomic(g).phase == SweepString
  {
    hide Inv, Linked, Finishing, Stage5, ClearTables, TmuMarked, ClosedMarks, StringsLinked, UpvalsLinked;
    Stage5Roots(g);
    Stage6Facts(Stage5(g));
    GlobalsTransitive(g, Stage5(g), Stage6(g));
    LinksFixed(g, Stage6(g));
  }

  lemma LinksFixed(g: G, r: G)
    requires StringsFixed(g) && SameGlobals(g, r)
    ensures StringsFixed(Flip(r)) && SameFixed(g, Flip(r))
  {
  }

  lemma {:induction false} MarkToPause(g0: G, g: G)
    requires Cycling(g0, g) && ClosedUnder(g0.heap, ReachSet(g0)) && RootsIn(g0, ReachSet(g0))
    ensures forall o :: o in FinishCycle(g).heap <==> Kept(g0, o) || Fixed(g0, o)
    decreases Whites(g.heap), |g.gray|
  {
    hide Inv, ClosedUnder, PropagateMark, ReachSet, Kept, Atomic, NoFinalizers, Bounded, StringsFixed, IsRoot, Work;
    if g.gray == [] {
      RootsInSame(g0, g);
      AtomicExact(g0, g);
      Stage5Bounded(g0.heap, g, ReachSet(g0));
      AtomicKeepsFixed(g);
      AtomicKeepsInv(g);
      StepProgress(g);
      SweepToPause(Atomic(g));
      AtomicStep(g);
    } else {
      CyclingStep(g0, g);
      PropagateLess(g);
      MarkToPause(g0, PropagateMark(g));
      assert FinishCycle(g) == FinishCycle(SingleStep(g)) by { NextCycle(g); }
    }
  }

  lemma NextCycle(g: G)
    requires Inv(g) && g.phase != Pause && (g.phase == Finalize ==> g.tmudata == [])
    ensures Inv(SingleStep(g)) && FinishCycle(g) == FinishCycle(SingleStep(g))
  {
    hide Inv, SingleStep;
    SingleStepKeepsInv(g);
  }

  lemma AtomicStep(g: G)
    requires Inv(g) && g.phase == Propagate && g.gray == [] && Inv(Atomic(g))
    ensures FinishCycle(g) == FinishCycle(Atomic(g))
  {
    hide Inv, Atomic;
    NextCycle(g);
  }

  lemma RootsInSame(g0: G, g: G)
    requires RootsIn(g0, ReachSet(g0)) && SameRoots(g0, g)
    ensures RootsIn(g, ReachSet(g0))
  {
    hide ReachSet;
    assert forall x :: IsRoot(g, x) <==> IsRoot(g0, x);
  }

  lemma CycleStarts(g: G)
    requires Inv(g) && g.phase == Finalize && NoFinalizers(g) && StringsFixed(g)
    ensures ClosedUnder(g.heap, ReachSet(g)) && RootsIn(g, ReachSet(g)) && Cycling(g, MarkRoot(g))
  {
    hide Linked, Tri, NoDangling, AllWhite, Reachable, MarkAll, SameStrong, StringsFixed;
    StartMarkTri(g);
    RootsAlive(g);
    ReachSetClosed(g);
    MarkRootKeepsInv(g);
    MarkRootBounded(g, ReachSet(g));
    NoFinalizersSame(g, MarkRoot(g));
    MarkRootTri(g);
    ShapeFixed(g, MarkRoot(g)) by { assert SameShape(g.heap, MarkRoot(g).heap); }
  }

  lemma RootsAlive(g: G)
    requires Inv(g)
    ensures forall x :: IsRoot(g, x) ==> x in g.heap
  {
  }

  /**
    A full collection, started in any phase, keeps exactly the objects that are strongly reachable, the strings that
    reachable tables hold, and the fixed objects, as long as there are no finalizers.
   */
  lemma FullGcExact(g: G, o: Id)
    requires Inv(g) && NoFinalizers(g)
    ensures o in FullGc(g).heap <==> Kept(g, o) || (o in g.heap && g.heap[o].fixed)
  {
    hide Inv, NoFinalizers, StringsFixed, Kept, MarkRoot, Sweeps, Reset, ReachSet, ClosedUnder, RootsIn, Cycling;
    InvFixed(g);
    ResetKeepsInv(g);
    var r := Reset(g);
    ResetSweeps(g);
    FinishSweepSweeps(r);
    var s := FinishSweep(r);
    SweepsTransitive(g, r, s);
    SweepsFinalizers(g, s);
    CycleStarts(s);
    MarkToPause(s, MarkRoot(s));
    InvSafe(g);
    InvSafe(s);
    SweepsKept(g, s, o);
    SweepsFixed(g, s, o);
  }

  lemma SweepsFixed(g: G, r: G, o: Id)
    requires Sweeps(g, r)
    ensures Fixed(r, o) <==> Fixed(g, o)
  {
  }

  lemma InvSafe(g: G)
    requires Inv(g)
    ensures Safe(g)
  {
  }

  lemma ResetSweeps(g: G)
    requires StringsFixed(g)
    ensures Sweeps(g, Reset(g)) && StringsFixed(Reset(g))
  {
    SweepsSelf(g);
    SameHeapSweeps(g, g, Reset(g));
  }

  lemma SweepsFinalizers(g: G, r: G)
    requires NoFinalizers(g) && Sweeps(g, r)
    ensures NoFinalizers(r)
  {
    assert forall o :: o in r.heap ==> SameContents(g.heap, r.heap, o);
  }

  /** After a full collection no reference, in a weak table or elsewhere, leads to a freed object. */
  lemma FullGcLeavesNoDangling(g: G, t: Id, o: Id)
    requires Inv(g) && Refers(FullGc(g).heap, t, o)
    ensures o in FullGc(g).heap
  {
    hide Inv, FullGc;
    var r := FullGc(g);
    RestIsAlive(r);
    InvSafe(r);
  }
}
