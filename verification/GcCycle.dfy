/** The start (`markroot`) and the end (`atomic`) of the mark phase. */
module GcCycle {
  import opened GcState
  import opened GcLists
  import opened GcMark
  import opened GcPropagate
  import opened GcAtomic
  import opened GcClear
  import opened GcInvariant

  function GlobalsOf(g: G): Value {
    if g.main in g.heap && g.heap[g.main].body.Thread? then g.heap[g.main].body.gt else Nil
  }

  function StartMark(g: G): G { g.(gray := [], grayagain := [], weak := [], phase := Propagate) }

  /** `markroot`: mark the main thread, its globals, the registry and the basic metatables. */
  function MarkRoot(g: G): G {
    Put(StartMark(g), MarkAll(Mk(StartMark(g)), [Ref(g.main), GlobalsOf(g), g.registry] + g.mt))
  }

  // Userdata with finalizers

  predicate Separable(h: Heap, u: Id) {
    u in h && h[u].body.Userdata? && h[u].color.White? && !h[u].body.finalized
  }

  predicate NeedsFinalizer(h: Heap, u: Id) {
    Separable(h, u) && h[u].body.hasgc
  }

  /** The elements of `l` that are, or are not, to be finalized. */
  function Pick(h: Heap, l: seq<Id>, pending: bool): (r: seq<Id>)
    ensures forall u :: u in r <==> u in l && NeedsFinalizer(h, u) == pending
  {
    if l == [] then []
    else (if NeedsFinalizer(h, l[0]) == pending then [l[0]] else []) + Pick(h, l[1..], pending)
  }

  function SetFinalized(h: Heap, l: seq<Id>): (r: Heap)
    ensures r.Keys == h.Keys
  {
    map o | o in h :: if o in l && Separable(h, o) then h[o].(body := h[o].body.(finalized := true)) else h[o]
  }

  /** `luaC_separateudata`: unmarked userdata with a finalizer move from the root list to `tmudata`. */
  function SeparateUdata(g: G): G
    requires g.main in g.rootgc
  {
    var k, l := IndexOf(g.rootgc, g.main) + 1, Behind(g.rootgc, g.main);
    g.(heap := SetFinalized(g.heap, l), rootgc := g.rootgc[..k] + Pick(g.heap, l, false),
       tmudata := g.tmudata + Pick(g.heap, l, true))
  }

  /** `marktmu` on one userdata: it is made white, then marked. */
  function MarkTmu(g: G, u: Id): G
    requires u in g.heap
  {
    Put(g, ReallyMark(Marker(Paint(g.heap, u, White(g.white)), g.gray), u))
  }

  function MarkTmus(g: G, us: seq<Id>): (r: G)
    ensures r.heap.Keys == g.heap.Keys
    decreases |us|
  {
    if us == [] then g
    else if us[0] in g.heap then MarkTmus(MarkTmu(g, us[0]), us[1..])
    else MarkTmus(g, us[1..])
  }

  // The stages of `atomic`

  function Stage1(g: G): G { PropagateAll(RemarkUpvals(g, g.uvhead)) }

  function MarkAgain(g: G): G { Put(g, MarkAll(Mk(g), [Ref(g.cur)] + g.mt)) }

  function Stage2(g: G): G { PropagateAll(MarkAgain(WeakToGray(Stage1(g)))) }

  function Stage3(g: G): G { PropagateAll(AgainToGray(Stage2(g))) }

  function Stage4(g: G): G {
    var s := Stage3(g);
    if s.main in s.rootgc then SeparateUdata(s) else s
  }

  function Stage5(g: G): G { PropagateAll(MarkTmus(Stage4(g), Stage4(g).tmudata)) }

  function Stage6(g: G): G { ClearTables(Stage5(g), Stage5(g).weak) }

  function Flip(g: G): G { g.(white := !g.white, sweepstrgc := 0, sweepgc := 0, phase := SweepString) }

  /** `atomic`: finish marking, clear weak tables, and turn to the sweep with the other white. */
  function Atomic(g: G): G { Flip(Stage6(g)) }

  // Correctness

  lemma MarkAllKeeps(g: G, vs: seq<Value>, uv: bool, except: set<Id>, todo: set<Id>)
    requires Tri(g, uv, except) && NoDangling(g.heap) && AtomicDone(g, todo)
    requires forall v :: v in vs && v.Ref? ==> v.id in g.heap
    ensures var r := Put(g, MarkAll(Mk(g), vs));
            && Stage(g, r) && Tri(r, uv, except) && NoDangling(r.heap) && AtomicDone(r, todo)
            && AllMarked(r.heap, vs) && OnlyMarks(g.heap, r.heap)
  {
    MarkAllMarks(Mk(g), vs);
    MarksKeepTri(g, uv, except, MarkAll(Mk(g), vs));
    NoDanglingSame(g.heap, MarkAll(Mk(g), vs).heap);
    DoneStays(g, Put(g, MarkAll(Mk(g), vs)), todo);
  }

  lemma RootsInHeap(g: G)
    requires Inv(g)
    ensures forall v :: v in [Ref(g.main), GlobalsOf(g), g.registry] + g.mt && v.Ref? ==> v.id in g.heap
  {
    forall v | v in [Ref(g.main), GlobalsOf(g), g.registry] + g.mt && v.Ref?
      ensures v.id in g.heap
    {
      if v == GlobalsOf(g) {
        assert Alive(g, g.main);
        assert Refers(g.heap, g.main, v.id);
      } else {
        assert IsRoot(g, v.id);
      }
    }
  }

  lemma WhiteNoneDead(g: G)
    requires AllWhite(g) && Safe(g)
    ensures NoneDead(g)
  {
    forall o | o in g.heap
      ensures !Dead(g, o)
    {
      if o in g.tmudata { assert IsRoot(g, o); }
    }
  }

  lemma StartMarkTri(g: G)
    requires Inv(g) && (g.phase == Pause || g.phase == Finalize)
    ensures Tri(StartMark(g), false, Elems(g.tmudata)) && NoDangling(g.heap) && NoneDead(g)
  {
    WhiteNoneDead(g);
    SafeNoDangling(g);
    assert Pending(StartMark(g)) == [];
  }

  /** Marking done on a safe heap without dead objects keeps it so. */
  lemma MarkedKeepsInv(g: G, r: G)
    requires Linked(g) && Safe(g) && NoneDead(g) && r.phase == Propagate
    requires r == g.(heap := r.heap, gray := r.gray, grayagain := r.grayagain, weak := r.weak, phase := r.phase)
    requires SameShape(g.heap, r.heap) && KeepsMarks(g.heap, r.heap)
    requires Tri(r, false, Elems(g.tmudata)) && Marked(r.heap, Ref(g.main)) && Marked(r.heap, g.registry)
    requires forall x :: x in g.tmudata ==> !Dead(r, x)
    requires g.cur in g.heap && g.heap[g.cur].body.Thread?
    ensures Inv(r)
  {
    SafeNoDangling(g);
    SameShapeNoDangling(g.heap, r.heap);
    TriNoneDead(r, false);
    assert forall x :: IsRoot(r, x) ==> IsRoot(g, x);
    NoDanglingSafe(r);
    TriOpenNotBlack(r, false);
    LinkedSameShape(g, r);
  }

  lemma MarkRootTri(g: G)
    requires Inv(g) && (g.phase == Pause || g.phase == Finalize)
    ensures var s, r := StartMark(g), MarkRoot(g);
            && Stage(s, r) && Tri(r, false, Elems(g.tmudata)) && OnlyMarks(g.heap, r.heap)
            && Marked(r.heap, Ref(g.main)) && Marked(r.heap, g.registry)
  {
    var vs := [Ref(g.main), GlobalsOf(g), g.registry] + g.mt;
    StartMarkTri(g);
    RootsInHeap(g);
    MarkAllKeeps(StartMark(g), vs, false, Elems(g.tmudata), {});
    assert vs[0] in vs && vs[2] in vs;
  }

  lemma TmudataAlive(g: G)
    requires Safe(g)
    ensures forall x :: x in g.tmudata ==> Alive(g, x)
  {
    assert forall x :: x in g.tmudata ==> IsRoot(g, x);
  }

  /** `markroot` establishes the tri-colour invariant. */
  lemma MarkRootKeepsInv(g: G)
    requires Inv(g) && (g.phase == Pause || g.phase == Finalize)
    ensures Inv(MarkRoot(g))
  {
    hide Inv, Linked, Safe, Tri, NoDangling, NoneDead, MarkRoot, SameShape, KeepsMarks;
    InvParts(g);
    StartMarkTri(g);
    MarkRootTri(g);
    TmudataAlive(g);
    MarkedKeepsInv(g, MarkRoot(g));
  }

  /** The invariant between the stages of `atomic`. */
  ghost predicate Between(g: G, s: G, uv: bool, todo: set<Id>) {
    Stage(g, s) && Tri(s, uv, Elems(g.tmudata)) && NoDangling(s.heap) && AtomicDone(s, todo)
  }

  lemma PropagateAllBetween(g: G, s: G, uv: bool, todo: set<Id>)
    requires Between(g, s, uv, todo)
    ensures Between(g, PropagateAll(s), uv, todo) && PropagateAll(s).gray == [] && Stage(s, PropagateAll(s))
  {
    PropagateAllKeeps(s, uv, Elems(g.tmudata), todo);
    StageTransitive(g, s, PropagateAll(s));
  }

  lemma InvNoDangling(g: G)
    requires Inv(g) && g.phase == Propagate
    ensures NoDangling(g.heap) && NoneDead(g)
  {
    assert forall x :: x in g.tmudata ==> IsRoot(g, x);
    TriNoneDead(g, false);
    SafeNoDangling(g);
  }

  lemma Stage1Between(g: G)
    requires Inv(g) && g.phase == Propagate && g.gray == []
    ensures Between(g, Stage1(g), true, Elems(g.weak) + Elems(g.grayagain)) && Stage1(g).gray == []
  {
    InvNoDangling(g);
    var todo := Elems(g.weak) + Elems(g.grayagain);
    RemarkKeeps(g, g.uvhead, Elems(g.tmudata), todo);
    PropagateAllBetween(g, RemarkUpvals(g, g.uvhead), true, todo);
  }

  lemma MarkAgainBetween(g: G, w: G, todo: set<Id>)
    requires Between(g, w, true, todo) && w.cur in w.heap
    requires forall v :: v in w.mt && v.Ref? ==> v.id in w.heap
    ensures Between(g, MarkAgain(w), true, todo) && Stage(w, MarkAgain(w))
    ensures Marked(MarkAgain(w).heap, Ref(w.cur)) && AllMarked(MarkAgain(w).heap, w.mt)
  {
    var vs := [Ref(w.cur)] + w.mt;
    MarkAllKeeps(w, vs, true, Elems(g.tmudata), todo);
    StageTransitive(g, w, MarkAgain(w));
    assert vs[0] in vs && forall v :: v in w.mt ==> v in vs;
  }

  lemma Stage2Between(g: G)
    requires Inv(g) && g.phase == Propagate && g.gray == []
    ensures Between(g, Stage2(g), true, Elems(Stage1(g).grayagain)) && Stage2(g).gray == []
    ensures forall x :: x in Stage1(g).grayagain ==> x in Stage2(g).grayagain
    ensures Marked(Stage2(g).heap, Ref(g.cur)) && AllMarked(Stage2(g).heap, g.mt)
  {
    Stage1Between(g);
    forall v | v in g.mt && v.Ref?
      ensures v.id in g.heap
    {
      assert IsRoot(g, v.id);
    }
    assert IsRoot(g, g.cur);
    Stage2From(g, Stage1(g), Elems(g.weak) + Elems(g.grayagain));
  }

  lemma Stage2From(g: G, s: G, todo: set<Id>)
    requires Between(g, s, true, todo) && s.gray == [] && s.cur in s.heap
    requires forall v :: v in s.mt && v.Ref? ==> v.id in s.heap
    ensures var r := PropagateAll(MarkAgain(WeakToGray(s)));
            && Between(g, r, true, Elems(s.grayagain)) && r.gray == []
            && (forall x :: x in s.grayagain ==> x in r.grayagain)
            && Marked(r.heap, Ref(s.cur)) && AllMarked(r.heap, s.mt)
  {
    var w := WeakToGray(s);
    var left := Elems(s.grayagain);
    assert left == set x | x in s.grayagain;
    WeakToGrayKeeps(s, true, Elems(g.tmudata), todo);
    MarkAgainBetween(g, w, left);
    PropagateAllBetween(g, MarkAgain(w), true, left);
    GrayagainGrows(MarkAgain(w), true, Elems(g.tmudata));
  }

  /** `propagateall` only adds to `grayagain`. */
  lemma {:induction false} GrayagainGrows(g: G, uv: bool, except: set<Id>)
    requires Tri(g, uv, except) && NoDangling(g.heap)
    ensures forall x :: x in g.grayagain ==> x in PropagateAll(g).grayagain
    decreases Whites(g.heap), |g.gray|
  {
    hide ListsOk, ObjTri, NoDangling, SlotsMarked, SameShape, KeepsMarks;
    if HasGray(g) {
      PropagateKeepsTri(g, uv, except);
      MarkingLists(g);
      GrayagainGrows(PropagateMark(g), uv, except);
    }
  }

  lemma Stage3Between(g: G)
    requires Inv(g) && g.phase == Propagate && g.gray == []
    ensures Between(g, Stage3(g), true, {}) && Stage3(g).gray == []
    ensures Marked(Stage3(g).heap, Ref(g.cur)) && AllMarked(Stage3(g).heap, g.mt)
  {
    Stage2Between(g);
    AgainToGrayKeeps(Stage2(g), true, Elems(g.tmudata), Elems(Stage1(g).grayagain));
    assert Between(g, AgainToGray(Stage2(g)), true, {});
    PropagateAllBetween(g, AgainToGray(Stage2(g)), true, {});
  }

  // Userdata with finalizers

  lemma SetFinalizedShape(h: Heap, l: seq<Id>)
    ensures forall o, x :: Refers(SetFinalized(h, l), o, x) <==> Refers(h, o, x)
    ensures forall b :: SlotsMarked(h, b) ==> SlotsMarked(SetFinalized(h, l), b)
  {
    var r := SetFinalized(h, l);
    forall loc
      ensures UpvalValue(r, loc) == UpvalValue(h, loc)
    {
    }
    forall o, x
      ensures Refers(r, o, x) <==> Refers(h, o, x)
    {
    }
  }

  lemma ObjTriFinalized(g: G, g': G, l: seq<Id>, o: Id)
    requires o in g.heap && ObjTri(g, true, o)
    requires g'.heap == SetFinalized(g.heap, l) && g'.white == g.white && Pending(g') == Pending(g)
    ensures ObjTri(g', true, o)
  {
    SetFinalizedShape(g.heap, l);
    if SlotsMarked(g.heap, g.heap[o].body) {
      assert SlotsMarked(g'.heap, g.heap[o].body);
      assert SlotsMarked(g'.heap, g'.heap[o].body);
    }
  }

  /** Separation leaves the tri-colour invariant as it is, `tmudata` being exempt. */
  lemma SeparateKeeps(g: G)
    requires Tri(g, true, Elems(g.tmudata)) && NoDangling(g.heap) && AtomicDone(g, {}) && g.main in g.rootgc
    ensures var r := SeparateUdata(g);
            && Tri(r, true, Elems(r.tmudata)) && NoDangling(r.heap) && AtomicDone(r, {})
            && KeepsMarks(g.heap, r.heap)
  {
    var r := SeparateUdata(g);
    var l := Behind(g.rootgc, g.main);
    SetFinalizedShape(g.heap, l);
    assert r.heap == SetFinalized(g.heap, l);
    forall o | o in r.heap && o !in Elems(r.tmudata)
      ensures ObjTri(r, true, o)
    {
      assert o !in g.tmudata;
      ObjTriFinalized(g, r, l, o);
    }
    assert forall o :: o in g.weak + g.grayagain ==> o in Pending(g);
    DoneStays(g, r, {});
  }

  /** Userdata waiting for finalization are marked, with what they refer to. */
  ghost predicate TmuMarked(h: Heap, us: seq<Id>) {
    forall u :: u in us ==> u in h && !h[u].color.White? && SlotsMarked(h, h[u].body)
  }

  lemma TmuStays(h: Heap, h': Heap, us: seq<Id>)
    requires TmuMarked(h, us) && KeepsMarks(h, h')
    requires forall u :: u in us ==> u in h && u in h' && h[u].body.Userdata? && h'[u].body == h[u].body
    ensures TmuMarked(h', us)
  {
    forall u | u in us
      ensures SlotsMarked(h', h'[u].body)
    {
      SlotsStayMarked(h, h', h[u].body);
    }
  }

  lemma PaintExceptKeeps(g: G, u: Id)
    requires Tri(g, true, Elems(g.tmudata)) && NoDangling(g.heap) && AtomicDone(g, {})
    requires u in g.tmudata && u in g.heap && g.heap[u].body.Userdata?
    ensures var p := g.(heap := Paint(g.heap, u, Black));
            Tri(p, true, Elems(g.tmudata)) && NoDangling(p.heap) && AtomicDone(p, {}) && KeepsMarks(g.heap, p.heap)
  {
    hide SlotsMarked, WeakDone, NoDup;
    var p := g.(heap := Paint(g.heap, u, Black));
    assert Pending(p) == Pending(g);
    NoDanglingSame(g.heap, p.heap);
    forall o | o in p.heap && o !in Elems(g.tmudata)
      ensures ObjTri(p, true, o)
    {
      ObjTriKept(g, p, true, o);
    }
    DoneStays(g, p, {});
  }

  lemma MarkTmuIsMarkAll(g: G, u: Id)
    requires u in g.heap && g.heap[u].body.Userdata?
    ensures var p := g.(heap := Paint(g.heap, u, Black));
            MarkTmu(g, u) == Put(p, MarkAll(Mk(p), [g.heap[u].body.meta, g.heap[u].body.env]))
  {
    assert Paint(Paint(g.heap, u, White(g.white)), u, Black) == Paint(g.heap, u, Black);
  }

  /** What marking some of `tmudata` gives. */
  ghost predicate TmuStep(g: G, r: G, us: seq<Id>) {
    && Stage(g, r) && Tri(r, true, Elems(g.tmudata)) && NoDangling(r.heap) && AtomicDone(r, {})
    && SameButColor(g.heap, r.heap) && TmuMarked(r.heap, us)
  }

  lemma PaintedShape(g: G, u: Id, r: G)
    requires u in g.heap && g.heap[u].body.Userdata?
    requires var p := g.(heap := Paint(g.heap, u, Black));
             Stage(p, r) && OnlyMarks(p.heap, r.heap) && AllMarked(r.heap, [g.heap[u].body.meta, g.heap[u].body.env])
    ensures Stage(g, r) && SameButColor(g.heap, r.heap) && TmuMarked(r.heap, [u])
  {
    var vs := [g.heap[u].body.meta, g.heap[u].body.env];
    assert vs[0] in vs && vs[1] in vs;
  }

  lemma MarkTmuKeeps(g: G, u: Id)
    requires Tri(g, true, Elems(g.tmudata)) && NoDangling(g.heap) && AtomicDone(g, {})
    requires u in g.tmudata && u in g.heap && g.heap[u].body.Userdata?
    ensures TmuStep(g, MarkTmu(g, u), [u])
  {
    var b := g.heap[u].body;
    var p := g.(heap := Paint(g.heap, u, Black));
    PaintExceptKeeps(g, u);
    var vs := [b.meta, b.env];
    assert forall v :: v in vs && v.Ref? ==> Refers(g.heap, u, v.id);
    MarkAllKeeps(p, vs, true, Elems(g.tmudata), {});
    MarkTmuIsMarkAll(g, u);
    PaintedShape(g, u, Put(p, MarkAll(Mk(p), vs)));
  }

  lemma TmuStepCons(g: G, n: G, r: G, u: Id, rest: seq<Id>)
    requires TmuStep(g, n, [u]) && TmuStep(n, r, rest) && u in g.heap && g.heap[u].body.Userdata?
    ensures TmuStep(g, r, [u] + rest)
  {
    StageTransitive(g, n, r);
    TmuStays(n.heap, r.heap, [u]);
    assert u in [u];
    forall x | x in [u] + rest
      ensures x in r.heap && !r.heap[x].color.White? && SlotsMarked(r.heap, r.heap[x].body)
    {
      assert x == u || x in rest;
    }
  }

  lemma {:induction false} MarkTmusKeeps(g: G, us: seq<Id>)
    requires Tri(g, true, Elems(g.tmudata)) && NoDangling(g.heap) && AtomicDone(g, {})
    requires forall u :: u in us ==> u in g.tmudata && u in g.heap && g.heap[u].body.Userdata?
    ensures TmuStep(g, MarkTmus(g, us), us)
    decreases |us|
  {
    if us != [] {
      var u, rest := us[0], us[1..];
      assert us == [u] + rest;
      assert u in us && forall x :: x in rest ==> x in us;
      var n := MarkTmu(g, u);
      MarkTmuKeeps(g, u);
      MarkTmusKeeps(n, rest);
      TmuStepCons(g, n, MarkTmus(n, rest), u, rest);
    }
  }

  // The end of the mark phase

  lemma SlotsSeen(h: Heap, b: Body)
    requires SlotsMarked(h, b)
    ensures SeesMarked(h, b)
  {
  }

  /** A marked object outside the weak list holds nothing white once the gray list is empty. */
  lemma MarkedSeesMarked(g: G, o: Id)
    requires Tri(g, true, Elems(g.tmudata)) && AtomicDone(g, {}) && g.gray == [] && TmuMarked(g.heap, g.tmudata)
    requires o in g.heap && !g.heap[o].color.White? && o !in g.weak
    ensures SeesMarked(g.heap, g.heap[o].body)
  {
    if o !in g.tmudata {
      assert ObjTri(g, true, o);
    }
    if SlotsMarked(g.heap, g.heap[o].body) {
      SlotsSeen(g.heap, g.heap[o].body);
    }
  }

  /** Marked objects are closed under references, weak ones included. */
  ghost predicate ClosedMarks(h: Heap) {
    forall o, x :: Refers(h, o, x) && !h[o].color.White? ==> x in h && !h[x].color.White?
  }

  lemma WeakListNoDup(g: G)
    requires Tri(g, true, Elems(g.tmudata)) && AtomicDone(g, {})
    ensures NoDup(g.weak) && forall t :: t in g.weak ==> t in g.heap && WeakDone(g.heap, g.heap[t].body)
  {
    var p := Pending(g);
    assert forall i :: 0 <= i < |g.weak| ==> g.weak[i] == p[|g.gray| + |g.grayagain| + i];
  }

  lemma ClearedSeesMarked(g: G, h: Heap, o: Id)
    requires Tri(g, true, Elems(g.tmudata)) && AtomicDone(g, {}) && g.gray == [] && TmuMarked(g.heap, g.tmudata)
    requires ClearedAll(g.heap, h, g.weak) && o in h && !h[o].color.White?
    ensures SeesMarked(h, h[o].body)
  {
    if o !in g.weak {
      if g.heap[o].color.White? {
        assert g.heap[o].body.String?;
      } else {
        MarkedSeesMarked(g, o);
        SeesMarkedStays(g.heap, h, g.heap[o].body, h[o].body);
      }
    }
  }

  /** At the end of marking and clearing, nothing marked refers to anything unmarked. */
  lemma MarkedClosed(g: G)
    requires Tri(g, true, Elems(g.tmudata)) && NoDangling(g.heap) && AtomicDone(g, {}) && g.gray == []
    requires TmuMarked(g.heap, g.tmudata)
    ensures ClearTables(g, g.weak) == g.(heap := ClearTables(g, g.weak).heap)
    ensures ClearedAll(g.heap, ClearTables(g, g.weak).heap, g.weak)
    ensures ClosedMarks(ClearTables(g, g.weak).heap)
  {
    var h := ClearTables(g, g.weak).heap;
    WeakListNoDup(g);
    ClearTablesMarks(g, g.weak);
    forall o, x | Refers(h, o, x) && !h[o].color.White?
      ensures x in h && !h[x].color.White?
    {
      ClearedSeesMarked(g, h, o);
      assert Marked(h, Ref(x));
    }
  }

  lemma {:induction false} PickNoDup(h: Heap, l: seq<Id>, pending: bool)
    requires NoDup(l)
    ensures NoDup(Pick(h, l, pending))
  {
    if l != [] {
      PickNoDup(h, l[1..], pending);
      assert forall j :: 0 < j < |l| ==> l[j] != l[0];
      assert l[0] !in l[1..];
      if NeedsFinalizer(h, l[0]) == pending { ConcatNoDup([l[0]], Pick(h, l[1..], pending)); }
    }
  }

  lemma PickSplits(h: Heap, rootgc: seq<Id>, tmudata: seq<Id>, main: Id)
    requires RootLinked(h, rootgc, tmudata, main)
    ensures var k, l := IndexOf(rootgc, main) + 1, Behind(rootgc, main);
            && NoDup(rootgc[..k] + Pick(h, l, false)) && NoDup(tmudata + Pick(h, l, true))
            && (forall u :: u in rootgc[..k] + Pick(h, l, false) <==> u in rootgc && !(u in l && NeedsFinalizer(h, u)))
            && (forall u :: u in l ==> u in rootgc)
  {
    var k, l := IndexOf(rootgc, main) + 1, Behind(rootgc, main);
    SplitBehind(rootgc, main, []);
    PickNoDup(h, l, false);
    PickNoDup(h, l, true);
    hide NoDup, IndexOf, Behind, RootLinked;
    ConcatNoDup(rootgc[..k], Pick(h, l, false));
    assert forall u :: u in l ==> u in rootgc[..k] + l;
    assert forall u :: u in Pick(h, l, true) ==> u !in tmudata by { RootNotTmu(h, rootgc, tmudata, main); }
    assert NoDup(tmudata) by { RootNotTmu(h, rootgc, tmudata, main); }
    ConcatNoDup(tmudata, Pick(h, l, true));
  }

  lemma RootNotTmu(h: Heap, rootgc: seq<Id>, tmudata: seq<Id>, main: Id)
    requires RootLinked(h, rootgc, tmudata, main)
    ensures NoDup(tmudata) && forall u :: u in rootgc ==> u !in tmudata
  {
  }

  /** Userdata behind the main thread may move from the root list to `tmudata`. */
  lemma MovedLinked(h: Heap, r: Heap, rootgc: seq<Id>, root: seq<Id>, tmudata: seq<Id>, tmu: seq<Id>, main: Id,
                    moved: set<Id>)
    requires RootLinked(h, rootgc, tmudata, main)
    requires r.Keys == h.Keys && forall o ::
               o in r ==> r[o].fixed == h[o].fixed
                          && (r[o].body == h[o].body || (h[o].body.Userdata? && r[o].body.Userdata?))
    requires forall o :: o in moved ==> o in h && h[o].body.Userdata?
    requires NoDup(root) && NoDup(tmu)
    requires forall o :: o in root <==> o in rootgc && o !in moved
    requires forall o :: o in tmu <==> o in tmudata || o in moved
    requires main in root && forall u :: u in Behind(root, main) ==> u in Behind(rootgc, main)
    ensures RootLinked(r, root, tmu, main)
  {
    hide NoDup, Behind;
  }

  /** Separation moves userdata from the root list to `tmudata` and keeps both well linked. */
  lemma SeparateLinked(h: Heap, rootgc: seq<Id>, tmudata: seq<Id>, main: Id)
    requires RootLinked(h, rootgc, tmudata, main)
    ensures var k, l := IndexOf(rootgc, main) + 1, Behind(rootgc, main);
            RootLinked(SetFinalized(h, l), rootgc[..k] + Pick(h, l, false), tmudata + Pick(h, l, true), main)
  {
    var k, l := IndexOf(rootgc, main) + 1, Behind(rootgc, main);
    PickSplits(h, rootgc, tmudata, main);
    var kept, gone := Pick(h, l, false), Pick(h, l, true);
    SplitBehind(rootgc, main, kept);
    hide NoDup, IndexOf, Behind, RootLinked;
    MovedLinked(h, SetFinalized(h, l), rootgc, rootgc[..k] + kept, tmudata, tmudata + gone, main, Elems(gone));
  }

  // `atomic` keeps the invariant

  lemma Stage3Linked(g: G)
    requires Inv(g) && g.phase == Propagate && g.gray == []
    ensures Linked(Stage3(g))
  {
    hide Inv, Linked, Tri, AtomicDone, NoDangling, Stage3, SameShape, KeepsMarks;
    Stage3Between(g);
    InvParts(g);
    TmudataLinked(g);
    assert forall x :: x in g.tmudata ==>
                         x in Stage3(g).heap && Stage3(g).heap[x].body.Userdata? by { ShapeParts(g, Stage3(g)); }
    TriOpenNotBlack(Stage3(g), true);
    LinkedSameShape(g, Stage3(g));
  }

  /** The marker's view of a state in which only the finalizers and the weak tables are left to do. */
  ghost predicate Finishing(s: G) {
    && Tri(s, true, Elems(s.tmudata)) && NoDangling(s.heap) && AtomicDone(s, {}) && s.gray == []
    && Marked(s.heap, Ref(s.cur)) && AllMarked(s.heap, s.mt)
  }

  lemma SetFinalizedLinks(h: Heap, l: seq<Id>)
    ensures SameLinks(h, SetFinalized(h, l))
    ensures forall o :: o in h ==> SetFinalized(h, l)[o].color == h[o].color
  {
  }

  lemma OpenNotBlack(h: Heap, uvhead: seq<Id>)
    requires UpvalsLinked(h, uvhead)
    ensures forall o :: o in h && IsOpen(h[o].body) ==> h[o].color != Black
  {
  }

  lemma FinalizedUpvals(h: Heap, l: seq<Id>, uvhead: seq<Id>)
    requires UpvalsLinked(h, uvhead)
    ensures UpvalsLinked(SetFinalized(h, l), uvhead)
  {
    OpenNotBlack(h, uvhead);
    SetFinalizedLinks(h, l);
    hide UpvalsLinked;
    SameLinksUpvals(h, SetFinalized(h, l), uvhead);
  }

  lemma SeparateSameLinks(s: G)
    requires s.main in s.rootgc
    ensures SameLinks(s.heap, SeparateUdata(s).heap)
  {
    SetFinalizedLinks(s.heap, Behind(s.rootgc, s.main));
    hide SameLinks, SetFinalized;
  }

  lemma SeparateIs(s: G, k: nat)
    requires s.main in s.rootgc && k == IndexOf(s.rootgc, s.main) + 1
    ensures var l := Behind(s.rootgc, s.main);
            SeparateUdata(s) == s.(heap := SetFinalized(s.heap, l), rootgc := s.rootgc[..k] + Pick(s.heap, l, false),
                                   tmudata := s.tmudata + Pick(s.heap, l, true))
  {
  }

  lemma SeparateLinks(s: G)
    requires Linked(s)
    ensures Linked(SeparateUdata(s))
  {
    hide StringsLinked, UpvalsLinked, RootLinked, SameLinks, SetFinalized, Pick, IndexOf, NoDup, Behind, SeparateUdata;
    TmudataLinked(s);
    var k, l := IndexOf(s.rootgc, s.main) + 1, Behind(s.rootgc, s.main);
    SeparateIs(s, k);
    SeparateLinked(s.heap, s.rootgc, s.tmudata, s.main);
    SetFinalizedLinks(s.heap, l);
    SameLinksStrings(s.heap, SetFinalized(s.heap, l), s.strt);
    FinalizedUpvals(s.heap, l, s.uvhead);
  }

  lemma TmudataLinked(g: G)
    requires Linked(g)
    ensures forall x :: x in g.tmudata ==> x in g.heap && g.heap[x].body.Userdata?
    ensures g.main in g.rootgc
  {
  }

  lemma SeparateFinishing(s: G)
    requires Finishing(s) && s.main in s.rootgc
    ensures Finishing(SeparateUdata(s)) && KeepsMarks(s.heap, SeparateUdata(s).heap)
  {
    SeparateKeeps(s);
  }

  /** Nothing outside the heap and the lists changes. */
  ghost predicate SameGlobals(g: G, s: G) {
    && s.white == g.white && s.main == g.main && s.cur == g.cur && s.registry == g.registry && s.mt == g.mt
       && s.strt == g.strt
    && SameLinks(g.heap, s.heap) && KeepsMarks(g.heap, s.heap)
  }

  lemma Stage3Finishing(g: G)
    requires Inv(g) && g.phase == Propagate && g.gray == []
    ensures Finishing(Stage3(g)) && SameGlobals(g, Stage3(g))
  {
    hide Inv, Tri, NoDangling, AtomicDone, Stage3;
    Stage3Between(g);
  }

  lemma SeparateGlobals(s: G)
    requires s.main in s.rootgc && SameLinks(s.heap, SeparateUdata(s).heap) && KeepsMarks(s.heap, SeparateUdata(s).heap)
    ensures SameGlobals(s, SeparateUdata(s))
  {
  }

  lemma GlobalsTransitive(a: G, b: G, c: G)
    requires SameGlobals(a, b) && SameGlobals(b, c)
    ensures SameGlobals(a, c)
  {
  }

  lemma Stage4Facts(g: G)
    requires Inv(g) && g.phase == Propagate && g.gray == []
    ensures Linked(Stage4(g)) && Finishing(Stage4(g)) && SameGlobals(g, Stage4(g))
  {
    hide Inv, Stage3, Linked, Finishing, SameGlobals, SeparateUdata, SameLinks, KeepsMarks;
    Stage3Finishing(g);
    Stage3Linked(g);
    TmudataLinked(Stage3(g));
    SeparateLinks(Stage3(g));
    SeparateSameLinks(Stage3(g));
    SeparateFinishing(Stage3(g));
    SeparateGlobals(Stage3(g));
    GlobalsTransitive(g, Stage3(g), SeparateUdata(Stage3(g)));
  }

  lemma StageLinked(s: G, r: G)
    requires Linked(s) && Stage(s, r) && Tri(r, true, Elems(s.tmudata))
    ensures Linked(r) && SameGlobals(s, r)
  {
    hide RootLinked, UpvalsLinked, StringsLinked;
    TmudataLinked(s);
    hide Linked;
    TriOpenNotBlack(r, true);
    hide Tri;
    LinkedSameShape(s, r);
  }

  lemma FinishingStays(s: G, r: G)
    requires Finishing(s) && Stage(s, r)
    ensures Marked(r.heap, Ref(r.cur)) && AllMarked(r.heap, r.mt)
  {
  }

  lemma Stage5Facts(s: G)
    requires Linked(s) && Finishing(s)
    ensures var r := PropagateAll(MarkTmus(s, s.tmudata));
            Linked(r) && Finishing(r) && SameGlobals(s, r) && TmuMarked(r.heap, r.tmudata)
  {
    TmudataLinked(s);
    hide Linked, Tri, NoDangling, AtomicDone, MarkTmus, PropagateAll, SameGlobals;
    var n := MarkTmus(s, s.tmudata);
    var r := PropagateAll(n);
    MarkTmusKeeps(s, s.tmudata);
    PropagateAllKeeps(n, true, Elems(s.tmudata), {});
    StageTransitive(s, n, r);
    TmuStays(n.heap, r.heap, s.tmudata);
    FinishingStays(s, r);
    StageLinked(s, r);
  }

  lemma StringsOnlyNotBlack(h: Heap, h': Heap)
    requires StringsOnly(h, h') && SameLinks(h, h')
    requires forall o :: o in h && IsOpen(h[o].body) ==> h[o].color != Black
    ensures forall o :: o in h' && IsOpen(h'[o].body) ==> h'[o].color != Black
  {
  }

  lemma Stage6Facts(s: G)
    requires Linked(s) && Finishing(s) && TmuMarked(s.heap, s.tmudata)
    ensures var r := ClearTables(s, s.weak);
            && Linked(r) && SameGlobals(s, r) && r.tmudata == s.tmudata && ClosedMarks(r.heap)
            && (forall o :: o in r.heap && r.heap[o].color.White? ==> r.heap[o].color == White(s.white))
            && (forall o :: o in r.tmudata ==> o in r.heap && !r.heap[o].color.White?)
  {
    hide Linked, AtomicDone, NoDangling;
    MarkedClosed(s);
    TmudataLinked(s);
    var r := ClearTables(s, s.weak);
    TriOpenNotBlack(s, true);
    StringsOnlyNotBlack(s.heap, r.heap);
    LinkedSameShape(s, r);
    forall o | o in r.heap && r.heap[o].color.White?
      ensures r.heap[o].color == White(s.white)
    {
      if o !in s.tmudata { assert ObjTri(s, true, o); }
    }
  }

  /** After the flip, what is not dead is what was marked. */
  lemma FlipKeepsInv(s: G)
    requires Linked(s) && ClosedMarks(s.heap)
    requires forall o :: o in s.heap && s.heap[o].color.White? ==> s.heap[o].color == White(s.white)
    requires forall x :: IsRoot(s, x) ==> x in s.heap && !s.heap[x].color.White?
    requires s.cur in s.heap && s.heap[s.cur].body.Thread?
    ensures Inv(Flip(s))
  {
    var r := Flip(s);
    assert forall o :: Alive(r, o) <==> o in s.heap && !s.heap[o].color.White?;
    assert forall x :: IsRoot(r, x) <==> IsRoot(s, x);
  }

  lemma RootsMarked(g: G, a: G, s: G)
    requires SameGlobals(g, a) && SameGlobals(a, s)
    requires Marked(g.heap, Ref(g.main)) && Marked(g.heap, g.registry)
    requires Marked(a.heap, Ref(a.cur)) && AllMarked(a.heap, a.mt)
    requires forall o :: o in s.tmudata ==> o in s.heap && !s.heap[o].color.White?
    ensures forall x :: IsRoot(s, x) ==> x in s.heap && !s.heap[x].color.White?
  {
    forall x | IsRoot(s, x)
      ensures x in s.heap && !s.heap[x].color.White?
    {
      if x == s.main || s.registry == Ref(x) {
        assert Marked(g.heap, Ref(x));
      } else if x == s.cur || Ref(x) in s.mt {
        assert Marked(a.heap, Ref(x));
      }
    }
  }

  lemma MarkedRoots(g: G)
    requires Inv(g) && g.phase == Propagate
    ensures Marked(g.heap, Ref(g.main)) && Marked(g.heap, g.registry)
    ensures g.cur in g.heap && g.heap[g.cur].body.Thread?
  {
  }

  /** `atomic` keeps the invariant: what it leaves unmarked is unreachable, even through weak tables. */
  lemma AtomicKeepsInv(g: G)
    requires Inv(g) && g.phase == Propagate && g.gray == []
    ensures Inv(Atomic(g))
  {
    hide Inv, Linked, Tri, NoDangling, AtomicDone, ClosedMarks;
    hide TmuMarked, Stage4, Flip, PropagateAll, MarkTmus, ClearTables;
    MarkedRoots(g);
    Stage4Facts(g);
    Stage5Facts(Stage4(g));
    Stage6Facts(Stage5(g));
    GlobalsTransitive(Stage4(g), Stage5(g), Stage6(g));
    RootsMarked(g, Stage4(g), Stage6(g));
    FlipKeepsInv(Stage6(g));
  }
}
