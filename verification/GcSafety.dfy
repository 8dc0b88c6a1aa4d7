/** Safety over every run: collector steps interleaved with operations of the program. */
module GcSafety {
  import opened GcState
  import opened GcLists
  import opened GcMark
  import opened GcPropagate
  import opened GcAtomic
  import opened GcClear
  import opened GcInvariant
  import opened GcUpval
  import opened GcClose
  import opened GcCycle
  import opened GcSweep
  import opened GcMutator
  import opened GcOps
  import opened GcFull

  /** A step of the collector, a full collection as `collectgarbage` asks for it, or an operation of the program. */
  datatype Event = Collect | FullCollect | Program(op: Op)

  ghost function Next(g: G, e: Event): G {
    match e
    case Collect => Step(g)
    case FullCollect => if Inv(g) then FullGc(g) else g
    case Program(op) => Apply(g, op)
  }

  ghost function Run(g: G, es: seq<Event>): G
    decreases |es|
  {
    if es == [] then g else Run(Next(g, es[0]), es[1..])
  }

  /** The program keeps to its side: each operation uses only what it can reach at that time. */
  ghost predicate Allowed(g: G, es: seq<Event>)
    decreases |es|
  {
    es == [] || ((es[0].Program? ==> Enabled(g, es[0].op)) && Allowed(Next(g, es[0]), es[1..]))
  }

  /** The invariant holds in every state of every run. */
  lemma {:induction false} RunKeepsInv(g: G, es: seq<Event>)
    requires Inv(g) && Allowed(g, es)
    ensures Inv(Run(g, es))
    decreases |es|
  {
    hide Inv, Enabled, Step, Apply, FullGc;
    if es != [] {
      match es[0] {
        case Collect => StepKeepsInv(g);
        case FullCollect =>
        case Program(op) => ApplyKeepsInv(g, op);
      }
      RunKeepsInv(Next(g, es[0]), es[1..]);
    }
  }

  // What a step frees

  /** No living object is freed. */
  ghost predicate KeepsAlive(g: G, r: G) {
    r.white == g.white && forall o :: Alive(g, o) ==> Alive(r, o)
  }

  lemma {:induction false} CloseKeepsAlive(g: G, th: Id)
    requires Inv(g) && g.phase != Propagate
    ensures KeepsAlive(g, Close(g, th, 0))
    decreases |OpenUpvals(g.heap, th)|
  {
    hide Inv, CloseFirst, UpvalsLinked, Collects;
    if OpenUpvals(g.heap, th) != [] {
      var uv := g.heap[th].body.openupval[0];
      var r := CloseFirst(g, th);
      assert UpvalsLinked(g.heap, g.uvhead) by { InvParts(g); }
      CloseFirstSweeps(g, th);
      CloseFirstSweep(g, th);
      CloseCollects(g, r, th, uv);
      CollectsKeepsAlive(g, r);
      CloseFirstShrinks(g, th);
      CloseKeepsAlive(r, th);
    }
  }

  lemma CollectsKeepsAlive(g: G, r: G)
    requires Collects(g, r)
    ensures KeepsAlive(g, r)
  {
  }

  lemma KeepOrFreeKeepsAlive(g: G)
    requires Inv(g) && g.phase == Sweep && g.sweepgc < |g.rootgc| && g.rootgc[g.sweepgc] in g.heap
    ensures KeepsAlive(g, KeepOrFree(g))
  {
    hide Inv, Close;
    CloseKeepsAlive(g, g.rootgc[g.sweepgc]);
  }

  lemma SweepOneKeepsAlive(g: G)
    requires Inv(g) && g.phase == Sweep && g.sweepgc < |g.rootgc|
    ensures CanSweep(g) && KeepsAlive(g, SweepOne(g))
  {
    hide Inv, KeepOrFree, SweepUpvals, UpvalsLinked, Linked, Collects;
    SweepUnder(g);
    var o := g.rootgc[g.sweepgc];
    if g.heap[o].body.Thread? {
      InvParts(g);
      FixedNotOpen(g);
      SweepUpvalsIs(g, o);
      SweptUpvalsCollects(g, SweepUpvals(g, o), o);
      CollectsKeepsAlive(g, SweepUpvals(g, o));
      SweepUpvalsKeepsInv(g, o);
      KeepOrFreeKeepsAlive(SweepUpvals(g, o));
    } else {
      KeepOrFreeKeepsAlive(g);
    }
  }

  lemma {:induction false} SweepSomeKeepsAlive(g: G, n: nat)
    requires Inv(g) && g.phase == Sweep
    ensures KeepsAlive(g, SweepSome(g, n))
    decreases n
  {
    hide Inv, SweepOne;
    if n > 0 && CanSweep(g) {
      SweepOneKeepsAlive(g);
      SweepOneKeepsInv(g);
      SweepSomeKeepsAlive(SweepOne(g), n - 1);
    }
  }

  lemma MarkingFreesNothing(g: G)
    requires Inv(g) && (g.phase == Pause || g.phase == Propagate)
    ensures SingleStep(g).heap.Keys == g.heap.Keys
  {
    hide Inv, PropagateAll, RemarkUpvals, MarkTmus, SetFinalized, ClearTables, PropagateMark;
    if g.phase == Propagate && g.gray == [] {
      assert Stage3(g).heap.Keys == g.heap.Keys;
      assert Stage4(g).heap.Keys == Stage3(g).heap.Keys;
    }
  }

  lemma SweepStringFrees(g: G, x: Id)
    requires Inv(g) && g.phase == SweepString && Alive(g, x)
    ensures x in SingleStep(g).heap
  {
  }

  lemma FinalizeFrees(g: G)
    requires g.phase == Finalize
    ensures SingleStep(g).heap.Keys == g.heap.Keys
  {
    hide IndexOf, Insert;
  }

  lemma PushKeys(g: G, v: Value)
    ensures PushValue(g, v).heap.Keys == g.heap.Keys
  {
  }

  /** No step of the collector frees an object that the program can reach, be it through weak tables only. */
  lemma StepFreesNothingReachable(g: G, x: Id)
    requires Inv(g) && Reachable(g, false, x)
    ensures x in g.heap && x in Step(g).heap
  {
    hide Inv, Reachable, SingleStep, PushValue;
    assert Safe(g) by { InvParts(g); }
    ReachableAlive(g, false, x);
    match g.phase
    case Pause => MarkingFreesNothing(g);
    case Propagate => MarkingFreesNothing(g);
    case SweepString => SweepStringFrees(g, x);
    case Sweep => SweepSomeKeepsAlive(g, GCSWEEPMAX); SweepStepHeap(g);
    case Finalize =>
      FinalizeFrees(g);
      PushKeys(SingleStep(g), if g.tmudata != [] then Ref(g.tmudata[0]) else Nil);
  }

  lemma SweepStepHeap(g: G)
    requires g.phase == Sweep
    ensures SingleStep(g).heap == SweepSome(g, GCSWEEPMAX).heap
  {
  }

  // From the start

  const MINSTRTABSIZE: nat := 32
  const NUM_TAGS: nat := 9

  /** The state after `lua_newstate`: main thread, table of globals and registry. */
  function Initial(): G {
    var weak := Mode(false, false);
    var main := Obj(White(false), true, Thread(Ref(1), [], []));
    var table := Obj(White(false), false, Table(Nil, weak, weak, [], []));
    G(map[0 := main, 1 := table, 2 := table], [2, 1, 0], 0, seq(MINSTRTABSIZE, _ => []), 0,
      [], [], [], [], [], false, Pause, 0, 0, Ref(2), seq(NUM_TAGS, _ => Nil))
  }

  lemma InitialStrings()
    ensures StringsLinked(Initial().heap, Initial().strt) && UpvalsLinked(Initial().heap, Initial().uvhead)
  {
    hide Bucket;
    var g := Initial();
    assert forall o :: o in g.heap ==> !g.heap[o].body.String? && !IsOpen(g.heap[o].body);
    assert forall j :: 0 <= j < |g.strt| ==> g.strt[j] == [];
  }

  lemma InitialOrder()
    ensures var g := Initial(); RootOrder(g.heap, g.rootgc, g.tmudata, g.main)
  {
    var l: seq<Id> := [2, 1, 0];
    assert l[2] == 0;
    assert IndexOf(l, 0) == 2 by { hide RootOrder; }
    assert Behind(l, 0) == [];
  }

  lemma InitialLinked()
    ensures Linked(Initial())
  {
    var g := Initial();
    InitialStrings();
    InitialOrder();
    hide StringsLinked, UpvalsLinked, RootOrder;
    assert g.rootgc[2] == 0 && g.rootgc[1] == 1 && g.rootgc[0] == 2;
    assert forall x :: x in g.rootgc <==> x in g.heap;
  }

  lemma InitialSafe()
    ensures Safe(Initial())
  {
    var g := Initial();
    assert forall x :: IsRoot(g, x) ==> x == 0 || x == 2;
    assert forall o, x :: Refers(g.heap, o, x) ==> x == 1;
  }

  lemma InitialInv()
    ensures Inv(Initial())
  {
    hide Linked, Safe;
    InitialLinked();
    InitialSafe();
  }

  /**
    The main safety property: from the start of the interpreter, after any interleaving of operations,
    collector steps and full collections, whatever the program can reach is still in the heap, and the next step keeps
    it.
   */
  lemma RunIsSafe(es: seq<Event>, x: Id)
    requires Allowed(Initial(), es)
    requires Reachable(Run(Initial(), es), false, x)
    ensures x in Run(Initial(), es).heap
    ensures x in Step(Run(Initial(), es)).heap
  {
    hide Inv, Reachable, Step, Initial, Allowed;
    InitialInv();
    RunKeepsInv(Initial(), es);
    StepFreesNothingReachable(Run(Initial(), es), x);
  }

  /**
    The tri-colour invariant in every run: while marking, no black object refers to a white one. Userdata
    waiting for a finalizer are set aside; they are marked again before the sweep.
   */
  lemma BlackNeverSeesWhite(es: seq<Event>, x: Id, y: Id)
    requires Allowed(Initial(), es)
    requires var g := Run(Initial(), es);
             && g.phase == Propagate && x !in g.tmudata
             && Refers(g.heap, x, y) && g.heap[x].color == Black
    ensures var g := Run(Initial(), es);
            && y in g.heap && !g.heap[y].color.White?
            && !g.heap[x].body.Thread? && !IsOpen(g.heap[x].body)
  {
    hide Inv, Reachable, Step, Initial, Allowed;
    var g := Run(Initial(), es);
    InitialInv();
    RunKeepsInv(Initial(), es);
    MarkPhaseFacts(g);
    assert ObjTri(g, false, x);
    SlotsSeen(g.heap, g.heap[x].body);
  }

  /**
    While marking, the objects that wait in the three lists are just the gray ones that have references to traverse,
    none of them in two places; what waits for the end of marking is a thread or a table.
   */
  lemma GrayWaits(es: seq<Event>, x: Id)
    requires Allowed(Initial(), es) && Run(Initial(), es).phase == Propagate
    ensures var g := Run(Initial(), es);
            && (x in g.gray || x in g.grayagain || x in g.weak <==>
                  x in g.heap && g.heap[x].color == Gray && Traversable(g.heap[x].body))
            && NoDup(g.gray + g.grayagain + g.weak)
            && (x in g.grayagain + g.weak ==> g.heap[x].body.Thread? || g.heap[x].body.Table?)
  {
    hide Inv, Reachable, Step, Initial, Allowed, NoDup, NoDangling;
    var g := Run(Initial(), es);
    InitialInv();
    RunKeepsInv(Initial(), es);
    MarkPhaseFacts(g);
    assert ListsOk(g) && NoDup(Pending(g));
    assert x in Pending(g) <==> x in g.gray || x in g.grayagain || x in g.weak;
    if x in g.heap && g.heap[x].color == Gray && Traversable(g.heap[x].body) {
      assert x !in g.tmudata by { InvParts(g); }
      assert ObjTri(g, false, x);
    }
  }
}
