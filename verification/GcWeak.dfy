/** What a collection leaves in the objects that the program can still reach, weak tables above all. */
module GcWeak {
  import opened GcState
  import opened GcLists
  import opened GcMark
  import opened GcPropagate
  import opened GcAtomic
  import opened GcClear
  import opened GcInvariant
  import opened GcCycle
  import opened GcSweep
  import opened GcBound
  import opened GcExact
  import opened GcFull
  import opened GcGarbage

  // Weak tables in any collection

  /**
    `atomic` clears each table of the weak list as its marks then say: an entry goes if and only if it holds an
    unmarked object, other than a string, or has a finalized userdata as its value.
   */
  lemma AtomicClears(g: G, t: Id)
    requires Inv(g) && g.phase == Propagate && g.gray == [] && t in Stage5(g).weak
    ensures var h, r := Stage5(g).heap, Atomic(g).heap; t in h && t in r && TableLeft(h, h[t].body, r[t].body)
  {
    hide Inv, Linked, Finishing, Stage4, Stage5, TableLeft, TmuMarked, SameGlobals;
    Stage4Facts(g);
    Stage5Facts(Stage4(g));
    var s := Stage5(g);
    assert s == PropagateAll(MarkTmus(Stage4(g), Stage4(g).tmudata)) by { Stage5Is(g); }
    FinishingNoDup(s);
    forall x | x in s.weak
      ensures x in s.heap && s.heap[x].body.Table?
    {
      WeakPending(s, x);
    }
    ClearTablesLeave(s, s.weak);
  }

  lemma Stage5Is(g: G)
    ensures Stage5(g) == PropagateAll(MarkTmus(Stage4(g), Stage4(g).tmudata))
  {
  }

  // Finalizers in any collection

  /** The objects are in the order in which they are in the other list. */
  ghost predicate InOrder(p: seq<Id>, l: seq<Id>) {
    forall i, j :: 0 <= i < j < |p| ==> Earlier(l, p[i], p[j])
  }

  predicate Earlier(l: seq<Id>, x: Id, y: Id) { x in l && y in l && IndexOf(l, x) < IndexOf(l, y) }

  lemma {:induction false} PickInOrder(h: Heap, l: seq<Id>, pending: bool)
    requires NoDup(l)
    ensures InOrder(Pick(h, l, pending), l)
  {
    hide IndexOf, NoDup, NeedsFinalizer, Earlier;
    if l != [] {
      TailNoDup(l);
      var q := Pick(h, l[1..], pending);
      PickInOrder(h, l[1..], pending);
      forall i, j | 0 <= i < j < |q|
        ensures Earlier(l, q[i], q[j])
      {
        LaterTail(l, q[i], q[j]);
      }
      forall x | x in q
        ensures Earlier(l, l[0], x)
      {
        assert x in l[1..];
        FirstEarlier(l, x);
      }
      FirstInOrder(l, q);
    }
  }

  lemma FirstInOrder(l: seq<Id>, q: seq<Id>)
    requires l != [] && InOrder(q, l) && forall x :: x in q ==> Earlier(l, l[0], x)
    ensures InOrder([l[0]] + q, l)
  {
    hide Earlier;
    var p := [l[0]] + q;
    forall i, j | 0 <= i < j < |p|
      ensures Earlier(l, p[i], p[j])
    {
      assert p[j] == q[j - 1] && q[j - 1] in q;
      if i > 0 { assert p[i] == q[i - 1]; }
    }
  }

  lemma LaterTail(l: seq<Id>, x: Id, y: Id)
    requires l != [] && l[0] !in l[1..] && Earlier(l[1..], x, y)
    ensures Earlier(l, x, y)
  {
    IndexTail(l, x);
    IndexTail(l, y);
  }

  lemma FirstEarlier(l: seq<Id>, x: Id)
    requires l != [] && l[0] !in l[1..] && x in l[1..]
    ensures Earlier(l, l[0], x)
  {
    IndexTail(l, x);
  }

  lemma IndexTail(l: seq<Id>, x: Id)
    requires l != [] && l[0] !in l[1..] && x in l[1..]
    ensures x in l && IndexOf(l, x) == 1 + IndexOf(l[1..], x) && IndexOf(l, l[0]) == 0
  {
  }

  /** To be finalized by this cycle: unmarked when `atomic` is done with marking, and not finalized yet. */
  ghost predicate Awaits(g: G, u: Id) {
    var s := Stage3(g);
    && u in g.heap && g.heap[u].body.Userdata? && g.heap[u].body.hasgc && !g.heap[u].body.finalized
    && u in s.heap && s.heap[u].color.White?
    && g.main in g.rootgc && u in Behind(g.rootgc, g.main)
  }

  /**
    `atomic` adds to the userdata that wait for their finalizers just those that it found unmarked, latest first as
    they are in the list of all objects, and notes that for each of them.
   */
  lemma AtomicFinalizes(g: G)
    requires Inv(g) && g.phase == Propagate && g.gray == []
    ensures Waiting(g.tmudata, g.rootgc, Atomic(g).tmudata)
    ensures forall u :: u in Atomic(g).tmudata[|g.tmudata|..] <==> Awaits(g, u)
    ensures forall u :: Awaits(g, u) ==> FinalizedData(Atomic(g).heap, Ref(u))
  {
    hide Inv, Linked, Stage3, IndexOf, SeparateUdata, Pick, Behind, NoDup, Stage6, SameShape, KeepsMarks, Waiting;
    Stage3Linked(g);
    var s, q := Stage3(g), Stage4(g);
    TmudataLinked(s);
    assert Stage(g, s) by { Stage3Stage(g); }
    RootNoDup(s);
    SeparateExact(s);
    EndStage(g);
    WaitingLength(g.tmudata, g.rootgc, q.tmudata);
    forall u
      ensures u in q.tmudata[|g.tmudata|..] <==> Awaits(g, u)
    {
      StageBody(g, s, u);
      InBehind(s.rootgc, s.main, u);
    }
    forall u | Awaits(g, u)
      ensures FinalizedData(Atomic(g).heap, Ref(u))
    {
      StageBody(q, Stage6(g), u);
    }
  }

  /** The list grew at its end, by objects in the order in which they are in the other list. */
  ghost predicate Waiting(l: seq<Id>, root: seq<Id>, r: seq<Id>) {
    |l| <= |r| && r[..|l|] == l && InOrder(r[|l|..], root)
  }

  lemma WaitingLength(l: seq<Id>, root: seq<Id>, r: seq<Id>)
    requires Waiting(l, root, r)
    ensures |l| <= |r|
  {
    hide IndexOf;
  }

  /** What separation moves, and in which order. */
  lemma SeparateExact(s: G)
    requires s.main in s.rootgc && NoDup(s.rootgc)
    ensures var n, q := |s.tmudata|, SeparateUdata(s);
            && Waiting(s.tmudata, s.rootgc, q.tmudata)
            && (forall u :: u in q.tmudata[n..] <==> u in Behind(s.rootgc, s.main) && NeedsFinalizer(s.heap, u))
            && forall u :: u in q.tmudata[n..] ==> FinalizedData(q.heap, Ref(u))
  {
    hide IndexOf, SeparateUdata, Pick, Behind, SetFinalized, NeedsFinalizer, NoDup, FinalizedData, Earlier;
    var l := Behind(s.rootgc, s.main);
    SeparateIs(s, IndexOf(s.rootgc, s.main) + 1);
    SplitBehind(s.rootgc, s.main, []);
    var n, p, r := |s.tmudata|, Pick(s.heap, l, true), SeparateUdata(s).tmudata;
    PickInOrder(s.heap, l, true);
    assert r[..n] == s.tmudata && r[n..] == p;
    forall i, j | 0 <= i < j < |p|
      ensures Earlier(s.rootgc, p[i], p[j])
    {
      EarlierBehind(s.rootgc, s.main, p[i], p[j]);
    }
    forall u | u in p
      ensures FinalizedData(SetFinalized(s.heap, l), Ref(u))
    {
      NotedFinalized(s.heap, l, u);
    }
  }

  lemma NotedFinalized(h: Heap, l: seq<Id>, u: Id)
    requires u in l && NeedsFinalizer(h, u)
    ensures FinalizedData(SetFinalized(h, l), Ref(u))
  {
  }

  lemma Stage3Stage(g: G)
    requires Inv(g) && g.phase == Propagate && g.gray == []
    ensures Stage(g, Stage3(g))
  {
    hide Inv, Tri, NoDangling, AtomicDone, Stage3, Stage;
    Stage3Between(g);
  }

  lemma RootNoDup(g: G)
    requires Linked(g)
    ensures NoDup(g.rootgc)
  {
  }

  lemma StageBody(g: G, s: G, u: Id)
    requires SameShape(g.heap, s.heap)
    ensures u in s.heap <==> u in g.heap
    ensures u in g.heap && (g.heap[u].body.Userdata? || s.heap[u].body.Userdata?) ==> s.heap[u].body == g.heap[u].body
  {
  }

  lemma InBehind(l: seq<Id>, x: Id, u: Id)
    requires x in l
    ensures u in Behind(l, x) ==> u in l
  {
    hide IndexOf;
  }

  lemma EarlierBehind(l: seq<Id>, m: Id, x: Id, y: Id)
    requires m in l && NoDup(l) && Earlier(Behind(l, m), x, y)
    ensures Earlier(l, x, y)
  {
    hide IndexOf, Behind, NoDup;
    IndexBehind(l, m, x);
    IndexBehind(l, m, y);
  }

  lemma IndexBehind(l: seq<Id>, x: Id, u: Id)
    requires x in l && NoDup(l) && u in Behind(l, x)
    ensures u in l && IndexOf(l, u) == IndexOf(l, x) + 1 + IndexOf(Behind(l, x), u)
  {
    hide IndexOf;
    var k := IndexOf(l, x) + 1;
    assert l[k + IndexOf(Behind(l, x), u)] == u;
    assert u in l && l[IndexOf(l, u)] == u;
  }

  /** From the separation of userdata to the sweep only marks, lists and entries of tables change. */
  lemma EndStage(g: G)
    requires Inv(g) && g.phase == Propagate && g.gray == []
    ensures Stage6(g).tmudata == Stage4(g).tmudata && SameShape(Stage4(g).heap, Stage6(g).heap)
  {
    hide Inv, Linked, Stage4, Tri, NoDangling, AtomicDone, MarkTmus, PropagateAll, SameGlobals, TmuMarked, ClosedMarks;
    Stage4Facts(g);
    var q := Stage4(g);
    TmudataLinked(q);
    var n := MarkTmus(q, q.tmudata);
    MarkTmusKeeps(q, q.tmudata);
    PropagateAllKeeps(n, true, Elems(q.tmudata), {});
    StageTransitive(q, n, PropagateAll(n));
    Stage5Facts(q);
    var s := PropagateAll(n);
    ClearStage(s);
    SameShapeTransitive(q.heap, s.heap, ClearTables(s, s.weak).heap);
  }

  lemma ClearStage(s: G)
    requires Finishing(s) && TmuMarked(s.heap, s.tmudata)
    ensures ClearTables(s, s.weak).tmudata == s.tmudata && SameShape(s.heap, ClearTables(s, s.weak).heap)
  {
    hide Tri, AtomicDone, NoDangling;
    MarkedClosed(s);
  }

  // No weak table is black in a collection that runs from its beginning

  ghost predicate WeakNotBlack(h: Heap) { forall o :: o in h && IsWeak(h[o].body) ==> h[o].color != Black }

  lemma MarksWeak(m: Marker, n: Marker)
    requires Marks(m, n) && WeakNotBlack(m.heap)
    ensures WeakNotBlack(n.heap)
  {
  }

  lemma PropagateWeak(g: G, uv: bool, except: set<Id>)
    requires Tri(g, uv, except) && NoDangling(g.heap) && g.gray != [] && WeakNotBlack(g.heap)
    ensures HasGray(g) && WeakNotBlack(PropagateMark(g).heap)
  {
    hide Tri, NoDangling, Marks, AllMarked, SlotsMarked, GcPropagate.Marking, PropagateMark, Children, SameShape;
    MarkingKeepsTri(g, uv, except);
    MarksWeak(Mk(Pop(g)), Mk(GcPropagate.Marking(g)));
    PropagateStep(g);
  }

  lemma {:induction false} PropagateAllWeak(g: G, uv: bool, except: set<Id>)
    requires Tri(g, uv, except) && NoDangling(g.heap) && WeakNotBlack(g.heap)
    ensures WeakNotBlack(PropagateAll(g).heap)
    decreases Whites(g.heap), |g.gray|
  {
    hide Tri, NoDangling, WeakNotBlack, PropagateMark;
    if HasGray(g) {
      PropagateWeak(g, uv, except);
      PropagateKeepsTri(g, uv, except);
      PropagateAllWeak(PropagateMark(g), uv, except);
    }
  }

  lemma {:induction false} RemarkWeak(g: G, uvs: seq<Id>, except: set<Id>, todo: set<Id>)
    requires Tri(g, false, except) && NoDangling(g.heap) && AtomicDone(g, todo) && RemarkLeft(g.heap, uvs)
    requires WeakNotBlack(g.heap)
    ensures WeakNotBlack(RemarkUpvals(g, uvs).heap)
    decreases |uvs|
  {
    hide Tri, NoDangling, AtomicDone, WeakNotBlack, SlotsMarked;
    if uvs != [] {
      if uvs[0] in g.heap && g.heap[uvs[0]].color == Gray && g.heap[uvs[0]].body.Upval? {
        var v := UpvalValue(g.heap, g.heap[uvs[0]].body.loc);
        RemarkOne(g, uvs, except, todo);
        UpvalInHeap(g, uvs[0]);
        MarkValueMarks(Mk(g), v);
        MarksWeak(Mk(g), MarkValue(Mk(g), v));
        RemarkWeak(Put(g, MarkValue(Mk(g), v)), uvs[1..], except, todo);
      } else {
        RemarkWeak(g, uvs[1..], except, todo);
      }
    }
  }

  lemma UpvalInHeap(g: G, o: Id)
    requires NoDangling(g.heap) && o in g.heap && g.heap[o].body.Upval?
    ensures var v := UpvalValue(g.heap, g.heap[o].body.loc); v.Ref? ==> v.id in g.heap
  {
    var v := UpvalValue(g.heap, g.heap[o].body.loc);
    assert v.Ref? ==> Refers(g.heap, o, v.id);
  }

  lemma Stage1Weak(g: G)
    requires Inv(g) && g.phase == Propagate && g.gray == [] && WeakNotBlack(g.heap)
    ensures WeakNotBlack(Stage1(g).heap)
  {
    hide Inv, Linked, Tri, NoDangling, AtomicDone, WeakNotBlack, RemarkLeft;
    InvNoDangling(g);
    InvTri(g);
    var todo := Elems(g.weak) + Elems(g.grayagain);
    RemarkKeeps(g, g.uvhead, Elems(g.tmudata), todo);
    RemarkWeak(g, g.uvhead, Elems(g.tmudata), todo);
    PropagateAllWeak(RemarkUpvals(g, g.uvhead), true, Elems(g.tmudata));
  }

  /** The running thread and the basic metatables are marked again, or nothing is; and then all that follows. */
  lemma StageWeak(g: G, w: G, todo: set<Id>)
    requires Between(g, w, true, todo) && WeakNotBlack(w.heap)
    requires w.cur in w.heap && forall v :: v in w.mt && v.Ref? ==> v.id in w.heap
    ensures WeakNotBlack(PropagateAll(w).heap) && WeakNotBlack(PropagateAll(MarkAgain(w)).heap)
  {
    hide Tri, NoDangling, AtomicDone, Stage, WeakNotBlack, Marks, AllMarked;
    PropagateAllWeak(w, true, Elems(g.tmudata));
    MarkAgainBetween(g, w, todo);
    MarkAllMarks(Mk(w), [Ref(w.cur)] + w.mt);
    MarksWeak(Mk(w), MarkAll(Mk(w), [Ref(w.cur)] + w.mt));
    PropagateAllWeak(MarkAgain(w), true, Elems(g.tmudata));
  }

  lemma StageRoots(g: G, r: G)
    requires Inv(g) && Stage(g, r)
    ensures r.cur in r.heap && forall v :: v in r.mt && v.Ref? ==> v.id in r.heap
  {
    RootsAlive(g);
    forall v | v in r.mt && v.Ref?
      ensures v.id in r.heap
    {
      assert IsRoot(g, v.id);
    }
  }

  lemma Stage3Weak(g: G)
    requires Inv(g) && g.phase == Propagate && g.gray == [] && WeakNotBlack(g.heap)
    ensures WeakNotBlack(Stage3(g).heap)
  {
    hide Inv, Linked, Tri, NoDangling, AtomicDone, Stage1, WeakNotBlack, SameShape, KeepsMarks;
    Stage1Weak(g);
    Stage1Between(g);
    var s := Stage1(g);
    WeakToGrayKeeps(s, true, Elems(g.tmudata), Elems(g.weak) + Elems(g.grayagain));
    StageRoots(g, WeakToGray(s));
    StageWeak(g, WeakToGray(s), Elems(s.grayagain));
    Stage2Between(g);
    var u := Stage2(g);
    AgainToGrayKeeps(u, true, Elems(g.tmudata), Elems(s.grayagain));
    StageRoots(g, AgainToGray(u));
    StageWeak(g, AgainToGray(u), {});
  }

  // What stays, by what the program can reach

  /** A key of a weak table lasts if it is a string, no object, or strongly reachable. */
  ghost predicate KeyLasts(g: G, v: Value) {
    v.Ref? && v.id in g.heap && !g.heap[v.id].body.String? ==> Reachable(g, true, v.id)
  }

  /** So does a value, unless it is a finalized userdata. */
  ghost predicate ValueLasts(g: G, v: Value) { KeyLasts(g, v) && !FinalizedData(g.heap, v) }

  /** The entry is still there if and only if what it holds lasts. */
  ghost predicate NodeLasts(g: G, weak: bool, n: Node, m: Node) {
    if !n.val.Nil? && (weak ==> KeyLasts(g, n.key) && ValueLasts(g, n.val)) then m == n else m.val.Nil?
  }

  ghost predicate TableLasts(g: G, b: Body, c: Body) {
    && b.Table? && c.Table? && c.meta == b.meta && c.mode == b.mode && |c.arr| == |b.arr| && |c.nodes| == |b.nodes|
    && (forall i :: 0 <= i < |b.arr| ==>
                      c.arr[i] == if b.mode.values && !ValueLasts(g, b.arr[i]) then Nil else b.arr[i])
    && (forall i :: 0 <= i < |b.nodes| ==> NodeLasts(g, IsWeak(b), b.nodes[i], c.nodes[i]))
  }

  /** Bodies of other objects are the same. */
  ghost predicate Lasts(g: G, h: Heap, o: Id) {
    && o in g.heap && o in h
    && if g.heap[o].body.Table? then TableLasts(g, g.heap[o].body, h[o].body) else h[o].body == g.heap[o].body
  }

  /** A table that was not cleared, and is not weak. */
  lemma StrongLasts(g: G, b: Body, c: Body)
    requires b.Table? && SameLooks(b, c) && !IsWeak(b)
    ensures TableLasts(g, b, c)
  {
    hide Reachable;
    forall i | 0 <= i < |b.nodes|
      ensures NodeLasts(g, IsWeak(b), b.nodes[i], c.nodes[i])
    {
      assert SameEntry(b.nodes[i], c.nodes[i]);
    }
  }

  /** What the marks and bits of `s` say of a value is what the program can reach in `g`. */
  ghost predicate Tells(g: G, s: G, v: Value) {
    && (Collected(s.heap, v) <==> !KeyLasts(g, v))
    && (!Collected(s.heap, v) ==> (FinalizedData(s.heap, v) <==> FinalizedData(g.heap, v)))
  }

  lemma MarkedTells(g: G, s: G, v: Value)
    requires Marked5(g, s) && forall o :: o in s.heap && !s.heap[o].color.White? && !g.heap[o].body.Table? ==>
                                            s.heap[o].body == g.heap[o].body
    ensures Tells(g, s, v)
  {
    hide Reachable, Edge, Finishing, TmuMarked;
    if v.Ref? && v.id in g.heap { assert SameLooks(g.heap[v.id].body, s.heap[v.id].body); }
  }

  /** A weak table is cleared of just what does not last. */
  lemma ClearedLasts(g: G, s: G, b: Body, w: Body, c: Body)
    requires forall v :: Tells(g, s, v)
    requires b.Table? && SameLooks(b, w) && IsWeak(b) && w.bits == b.mode && TableLeft(s.heap, w, c)
    ensures TableLasts(g, b, c)
  {
    hide KeyLasts, Collected, FinalizedData;
    forall i | 0 <= i < |b.arr|
      ensures c.arr[i] == if b.mode.values && !ValueLasts(g, b.arr[i]) then Nil else b.arr[i]
    {
      assert Tells(g, s, b.arr[i]);
    }
    forall i | 0 <= i < |b.nodes|
      ensures NodeLasts(g, IsWeak(b), b.nodes[i], c.nodes[i])
    {
      assert SameEntry(b.nodes[i], w.nodes[i]) && NodeLeft(s.heap, w.nodes[i], c.nodes[i]);
      assert Tells(g, s, b.nodes[i].key) && Tells(g, s, b.nodes[i].val);
    }
  }

  /** At the end of marking, a marked table outside the weak list is not weak. */
  lemma ListedWeak(s: G, t: Id)
    requires Finishing(s) && s.tmudata == [] && WeakNotBlack(s.heap) && t in s.heap && !s.heap[t].color.White?
             && IsWeak(s.heap[t].body)
    ensures t in s.weak
  {
    hide NoDangling, SlotsMarked, AllMarked;
    assert ObjTri(s, true, t);
    assert t in Pending(s);
  }

  /** In the part of a collection before `atomic`, which began with `g0`. */
  ghost predicate Started(g0: G, g: G) {
    Cycling(g0, g) && SameShape(g0.heap, g.heap) && WeakNotBlack(g.heap)
  }

  /** Without finalizers, marked userdata keep their bodies to the end of marking. */
  lemma Stage5Bodies(g0: G, g: G)
    requires Started(g0, g) && g.gray == [] && ClosedUnder(g0.heap, ReachSet(g0)) && RootsIn(g, ReachSet(g0))
    ensures var s := Stage5(g);
            && s.tmudata == [] && WeakNotBlack(s.heap) && s.heap.Keys == g0.heap.Keys
            && (forall o :: o in s.heap && !s.heap[o].color.White? && !g0.heap[o].body.Table? ==>
                              s.heap[o].body == g0.heap[o].body)
  {
    hide Inv, Linked, Finishing, ClosedUnder, Stage3, Stage5, SameStrong, RootsIn, NoFinalizers, ReachSet, Bounded;
    Stage5Bounded(g0.heap, g, ReachSet(g0));
    Stage3Weak(g);
    var u := Stage3(g);
    assert SameShape(g.heap, u.heap) by { Stage3Shape(g); }
    SameShapeTransitive(g0.heap, g.heap, u.heap);
    Stage5Separates(g);
    SeparatedBodies(g0, u, Stage5(g));
  }

  lemma Stage3Shape(g: G)
    requires Inv(g) && g.phase == Propagate && g.gray == []
    ensures SameShape(g.heap, Stage3(g).heap)
  {
    hide Inv, Tri, NoDangling, AtomicDone, Stage3;
    Stage3Between(g);
  }

  lemma Stage5Separates(g: G)
    requires Inv(g) && g.phase == Propagate && g.gray == [] && Stage5(g) == Stage4(g)
    ensures Stage3(g).main in Stage3(g).rootgc && Stage5(g) == SeparateUdata(Stage3(g))
  {
    hide Inv, Linked, Stage3, Stage5, SeparateUdata;
    Stage3Linked(g);
    TmudataLinked(Stage3(g));
  }

  lemma SeparatedBodies(g0: G, u: G, s: G)
    requires SameShape(g0.heap, u.heap) && WeakNotBlack(u.heap) && u.main in u.rootgc && s == SeparateUdata(u)
    ensures WeakNotBlack(s.heap) && s.heap.Keys == g0.heap.Keys
    ensures forall o :: o in s.heap && !s.heap[o].color.White? && !g0.heap[o].body.Table? ==>
                          s.heap[o].body == g0.heap[o].body
  {
    hide IndexOf, Behind;
    var l := Behind(u.rootgc, u.main);
    SeparateIs(u, IndexOf(u.rootgc, u.main) + 1);
    assert s.heap == SetFinalized(u.heap, l);
  }

  /** What `atomic` leaves in an object that the program reaches. */
  lemma AtomicLeaves(g0: G, g: G, o: Id)
    requires Started(g0, g) && g.gray == [] && ClosedUnder(g0.heap, ReachSet(g0)) && RootsIn(g, ReachSet(g0))
    requires Reachable(g0, true, o) && o in g0.heap
    ensures Lasts(g0, Atomic(g).heap, o)
  {
    hide *;
    StartedParts(g0, g);
    AtomicMarks(g0, g);
    Stage5Bodies(g0, g);
    var s := Stage5(g);
    AtomicHeap(g);
    MarkedLooks(g0, s, o);
    Marked5Parts(g0, s);
    if o in s.weak {
      WeakIs(s, o);
      ClearedListed(s, o);
      forall v
        ensures Tells(g0, s, v)
      {
        MarkedTells(g0, s, v);
      }
      assert IsWeak(g0.heap[o].body) && g0.heap[o].body.Table? && g0.heap[o].body.mode == s.heap[o].body.mode by {
        LooksWeak(g0.heap[o].body, s.heap[o].body);
      }
      ClearedLasts(g0, s, g0.heap[o].body, s.heap[o].body, ClearTables(s, s.weak).heap[o].body);
    } else {
      ClearTablesFrame(s, s.weak, o);
      if g0.heap[o].body.Table? {
        LooksWeak(g0.heap[o].body, s.heap[o].body);
        if IsWeak(g0.heap[o].body) { ListedWeak(s, o); }
        StrongLasts(g0, g0.heap[o].body, s.heap[o].body);
      }
    }
    LastsFrom(g0, Atomic(g).heap, o);
  }

  lemma LastsFrom(g: G, h: Heap, o: Id)
    requires o in g.heap && o in h
    requires if g.heap[o].body.Table? then TableLasts(g, g.heap[o].body, h[o].body) else h[o].body == g.heap[o].body
    ensures Lasts(g, h, o)
  {
    hide TableLasts;
  }

  lemma StartedParts(g0: G, g: G)
    requires Started(g0, g) && ClosedUnder(g0.heap, ReachSet(g0)) && RootsIn(g, ReachSet(g0)) && g.gray == []
    ensures GcExact.Marking(g0.heap, g, ReachSet(g0)) && SameRoots(g0, g) && Cycling(g0, g)
            && Inv(g) && g.phase == Propagate
  {
    hide Inv, ClosedUnder, RootsIn, ReachSet, Bounded, NoFinalizers;
  }

  lemma AtomicHeap(g: G)
    ensures Atomic(g).heap == ClearTables(Stage5(g), Stage5(g).weak).heap
    ensures ClearTables(Stage5(g), Stage5(g).weak).heap.Keys == Stage5(g).heap.Keys
  {
    hide Stage5, ClearTables;
  }

  lemma MarkedLooks(g: G, s: G, o: Id)
    requires Marked5(g, s) && o in g.heap && Reachable(g, true, o)
    ensures Finishing(s) && s.tmudata == [] && o in s.heap && !s.heap[o].color.White?
            && SameLooks(g.heap[o].body, s.heap[o].body)
  {
    hide Finishing, Reachable, Edge, SameLooks;
  }

  lemma WeakIs(s: G, t: Id)
    requires Finishing(s) && t in s.weak
    ensures t in s.heap && IsWeak(s.heap[t].body) && s.heap[t].body.bits == s.heap[t].body.mode
  {
    WeakPending(s, t);
  }

  lemma LooksWeak(b: Body, c: Body)
    requires SameLooks(b, c)
    ensures (b.Table? <==> c.Table?) && (b.Table? ==> c.mode == b.mode) && (IsWeak(b) <==> IsWeak(c))
  {
  }

  lemma ClearedListed(s: G, t: Id)
    requires Finishing(s) && t in s.weak
    ensures t in s.heap && t in ClearTables(s, s.weak).heap
            && TableLeft(s.heap, s.heap[t].body, ClearTables(s, s.weak).heap[t].body)
  {
    hide Finishing, TableLeft;
    FinishingNoDup(s);
    forall x | x in s.weak
      ensures x in s.heap && s.heap[x].body.Table?
    {
      WeakPending(s, x);
    }
    ClearTablesLeave(s, s.weak);
  }

  // The whole collection

  /** As `Lasts`, but that upvalues may be closed. */
  ghost predicate Survives(g: G, h: Heap, o: Id) {
    && o in g.heap && o in h
    && if g.heap[o].body.Table? then TableLasts(g, g.heap[o].body, h[o].body) else SameContents(g.heap, h, o)
  }

  lemma LastsSwept(g0: G, a: G, r: G, o: Id)
    requires Lasts(g0, a.heap, o) && Sweeps(a, r) && Alive(a, o)
    requires g0.heap[o].body.Upval? ==>
               UpvalValue(a.heap, g0.heap[o].body.loc) == UpvalValue(g0.heap, g0.heap[o].body.loc)
    ensures Survives(g0, r.heap, o)
  {
    hide KeyLasts, NodeLasts;
    assert Alive(r, o) && SameContents(a.heap, r.heap, o);
  }

  lemma StartedUpvals(g0: G, g: G, loc: Loc)
    requires Started(g0, g) && g.gray == [] && ClosedUnder(g0.heap, ReachSet(g0)) && RootsIn(g, ReachSet(g0))
    ensures UpvalValue(Atomic(g).heap, loc) == UpvalValue(g0.heap, loc)
  {
    hide *;
    StartedParts(g0, g);
    AtomicMarks(g0, g);
    StrongUpvals(g0, Stage5(g), loc);
    ClearedUpvals(Stage5(g), loc);
    AtomicHeap(g);
  }

  lemma StrongUpvals(g: G, s: G, loc: Loc)
    requires Marked5(g, s)
    ensures UpvalValue(s.heap, loc) == UpvalValue(g.heap, loc) && Finishing(s) && s.tmudata == []
  {
    hide Finishing, Reachable, Edge;
    if loc.Open? && loc.th in g.heap { assert SameLooks(g.heap[loc.th].body, s.heap[loc.th].body); }
  }

  lemma ClearedUpvals(s: G, loc: Loc)
    requires Finishing(s) && s.tmudata == []
    ensures UpvalValue(ClearTables(s, s.weak).heap, loc) == UpvalValue(s.heap, loc)
  {
    hide Tri, AtomicDone, NoDangling;
    assert TmuMarked(s.heap, s.tmudata);
    MarkedClosed(s);
    UpvalShape(s.heap, ClearTables(s, s.weak).heap, loc);
  }

  lemma {:induction false} MarkToPauseLeaves(g0: G, g: G, o: Id)
    requires Started(g0, g) && ClosedUnder(g0.heap, ReachSet(g0)) && RootsIn(g0, ReachSet(g0))
    requires Reachable(g0, true, o) && o in g0.heap
    ensures Survives(g0, FinishCycle(g).heap, o)
    decreases Whites(g.heap), |g.gray|
  {
    hide Inv, ClosedUnder, PropagateMark, ReachSet, Kept, Atomic, NoFinalizers, Bounded, StringsFixed, IsRoot, Work;
    hide SameShape, WeakNotBlack, Lasts, Survives, Sweeps, Reachable;
    if g.gray == [] {
      RootsInSame(g0, g);
      AtomicLeaves(g0, g, o);
      AtomicExact(g0, g);
      KeptIs(g0, o);
      Stage5Bounded(g0.heap, g, ReachSet(g0));
      AtomicKeepsFixed(g);
      AtomicKeepsInv(g);
      SweepToPause(Atomic(g));
      AtomicStep(g);
      if g0.heap[o].body.Upval? { StartedUpvals(g0, g, g0.heap[o].body.loc); }
      LastsSwept(g0, Atomic(g), FinishCycle(g), o);
    } else {
      CyclingStep(g0, g);
      StartedStep(g0, g);
      PropagateLess(g);
      MarkToPauseLeaves(g0, PropagateMark(g), o);
      assert FinishCycle(g) == FinishCycle(SingleStep(g)) by { NextCycle(g); }
    }
  }

  lemma KeptIs(g: G, o: Id)
    requires Reachable(g, true, o) && o in g.heap
    ensures Kept(g, o)
  {
  }

  lemma StartedStep(g0: G, g: G)
    requires Started(g0, g) && g.gray != [] && HasGray(g)
    ensures SameShape(g0.heap, PropagateMark(g).heap) && WeakNotBlack(PropagateMark(g).heap)
  {
    hide Inv, SameShape, PropagateMark, WeakNotBlack, Tri, NoDangling, Bounded, ReachSet;
    MarkPhaseFacts(g);
    PropagateShape(g, false, Elems(g.tmudata));
    PropagateWeak(g, false, Elems(g.tmudata));
    SameShapeTransitive(g0.heap, g.heap, PropagateMark(g).heap);
  }

  lemma StartsWeak(g: G)
    requires Inv(g) && g.phase == Finalize && g.tmudata == []
    ensures SameShape(g.heap, MarkRoot(g).heap) && WeakNotBlack(MarkRoot(g).heap)
  {
    hide Linked, Tri, NoDangling, Safe, SlotsMarked;
    StartMarkTri(g);
    MarkRootTri(g);
    RootsInHeap(g);
    var s := StartMark(g);
    MarkAllMarks(Mk(s), [Ref(g.main), GlobalsOf(g), g.registry] + g.mt);
    MarksWeak(Mk(s), MarkAll(Mk(s), [Ref(g.main), GlobalsOf(g), g.registry] + g.mt));
  }

  /** What the program sees of a reachable object before a sweep is what it sees after it. */
  lemma TellsSwept(g: G, s: G, t: Id, v: Value)
    requires Sweeps(g, s) && Safe(g) && Safe(s) && Alive(g, t)
    requires v.Ref? ==> Refers(g.heap, t, v.id)
    ensures (KeyLasts(g, v) <==> KeyLasts(s, v)) && (FinalizedData(g.heap, v) <==> FinalizedData(s.heap, v))
  {
    hide Reachable, Sees;
    if v.Ref? {
      assert Alive(s, v.id) && SameContents(g.heap, s.heap, v.id);
      SweepsReaches(g, s, v.id);
    }
  }

  lemma TableSwept(g: G, s: G, t: Id, c: Body)
    requires Sweeps(g, s) && Safe(g) && Safe(s) && Alive(g, t) && g.heap[t].body.Table?
    requires TableLasts(s, g.heap[t].body, c)
    ensures TableLasts(g, g.heap[t].body, c)
  {
    hide KeyLasts, FinalizedData, Sweeps, Safe;
    var b := g.heap[t].body;
    forall i | 0 <= i < |b.arr|
      ensures ValueLasts(g, b.arr[i]) <==> ValueLasts(s, b.arr[i])
    {
      TellsSwept(g, s, t, b.arr[i]);
    }
    forall i | 0 <= i < |b.nodes|
      ensures NodeLasts(g, IsWeak(b), b.nodes[i], c.nodes[i])
    {
      assert NodeLasts(s, IsWeak(b), b.nodes[i], c.nodes[i]);
      if !b.nodes[i].val.Nil? {
        TellsSwept(g, s, t, b.nodes[i].key);
        TellsSwept(g, s, t, b.nodes[i].val);
      }
    }
  }

  lemma SurvivesSwept(g: G, s: G, h: Heap, o: Id)
    requires Sweeps(g, s) && Safe(g) && Safe(s) && Alive(g, o) && Survives(s, h, o)
    ensures Survives(g, h, o)
  {
    hide Safe, TableLasts;
    assert Alive(s, o) && SameContents(g.heap, s.heap, o);
    if g.heap[o].body.Table? { TableSwept(g, s, o, h[o].body); }
  }

  /**
    A full collection, started in any phase, leaves every object that is strongly reachable as it was: upvalues keep
    their values, and a table loses just those entries of its weak parts that hold an object, other than a string,
    that is not strongly reachable, or a finalized userdata as a value.
   */
  lemma FullGcLeaves(g: G, o: Id)
    requires Inv(g) && NoFinalizers(g) && Reachable(g, true, o)
    ensures Survives(g, FullGc(g).heap, o)
  {
    hide Inv, NoFinalizers, StringsFixed, MarkRoot, Sweeps, Reset, ReachSet, ClosedUnder, RootsIn, Cycling;
    hide Reachable, Survives, WeakNotBlack, SameShape;
    InvFixed(g);
    ResetKeepsInv(g);
    var r := Reset(g);
    ResetSweeps(g);
    FinishSweepSweeps(r);
    var s := FinishSweep(r);
    SweepsTransitive(g, r, s);
    SweepsFinalizers(g, s);
    CycleStarts(s);
    NoTmudata(s);
    StartsWeak(s);
    InvSafe(g);
    InvSafe(s);
    ReachableAlive(g, true, o);
    SweepsReaches(g, s, o);
    ReachableAlive(s, true, o);
    MarkToPauseLeaves(s, MarkRoot(s), o);
    SurvivesSwept(g, s, FullGc(g).heap, o);
  }

  lemma NoTmudata(g: G)
    requires NoFinalizers(g)
    ensures g.tmudata == []
  {
  }
}
