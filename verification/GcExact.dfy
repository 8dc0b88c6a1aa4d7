/** The collector's cycle without finalizers: what `atomic` leaves unmarked is exactly the garbage. */
module GcExact {
  import opened GcState
  import opened GcLists
  import opened GcMark
  import opened GcPropagate
  import opened GcAtomic
  import opened GcClear
  import opened GcInvariant
  import opened GcCycle
  import opened GcSweep
  import opened GcBound

  /** No userdata has or awaits a finalizer. */
  ghost predicate NoFinalizers(g: G) {
    g.tmudata == [] && forall o :: o in g.heap && g.heap[o].body.Userdata? ==> !g.heap[o].body.hasgc
  }

  ghost predicate RootsIn(g: G, c: set<Id>) {
    forall x :: IsRoot(g, x) ==> x in c
  }

  lemma NoFinalizersSame(g: G, r: G)
    requires NoFinalizers(g) && r.tmudata == g.tmudata && SameStrong(g.heap, r.heap)
    ensures NoFinalizers(r)
  {
    hide Edge;
    assert forall o :: o in r.heap ==> SameLooks(g.heap[o].body, r.heap[o].body);
  }

  lemma MarkRootBounded(g: G, c: set<Id>)
    requires Inv(g) && (g.phase == Pause || g.phase == Finalize) && NoFinalizers(g)
    requires RootsIn(g, c) && ClosedUnder(g.heap, c)
    ensures Bounded(g.heap, MarkRoot(g), c)
  {
    hide Inv, Linked, StringsLinked, UpvalsLinked, RootLinked, SameStrong;
    var s := StartMark(g);
    assert AllWhite(g) by { FinalizeParts(g); }
    StrongSame(g.heap, s.heap);
    var vs := [Ref(g.main), GlobalsOf(g), g.registry] + g.mt;
    forall v | v in vs && v.Ref?
      ensures v.id in c
    {
      if v == GlobalsOf(g) { assert Edge(g.heap, true, g.main, v.id); } else { assert IsRoot(g, v.id); }
    }
    MarkAllBounded(g.heap, s, vs, c);
  }

  /** Before `atomic`, within the bound. */
  ghost predicate Marking(h0: Heap, g: G, c: set<Id>) {
    && Inv(g) && g.phase == Propagate && g.gray == [] && NoFinalizers(g)
    && Bounded(h0, g, c) && ClosedUnder(h0, c) && RootsIn(g, c)
  }

  lemma Stage1Bounded(h0: Heap, g: G, c: set<Id>)
    requires Marking(h0, g, c)
    ensures Bounded(h0, Stage1(g), c)
  {
    hide Inv, Linked, Tri, NoDangling, Bounded, ClosedUnder;
    InvNoDangling(g);
    InvTri(g);
    RemarkKeeps(g, g.uvhead, Elems(g.tmudata), Elems(g.weak) + Elems(g.grayagain));
    RemarkBounded(h0, g, g.uvhead, c);
    PropagateAllBounded(h0, RemarkUpvals(g, g.uvhead), c, true, Elems(g.tmudata));
  }

  lemma InvTri(g: G)
    requires Inv(g) && g.phase == Propagate
    ensures Tri(g, false, Elems(g.tmudata)) && RemarkLeft(g.heap, g.uvhead)
    ensures AtomicDone(g, Elems(g.weak) + Elems(g.grayagain))
  {
  }

  lemma RootValuesIn(g: G, c: set<Id>)
    requires RootsIn(g, c)
    ensures ValuesIn([Ref(g.cur)] + g.mt, c)
  {
    forall v | v in [Ref(g.cur)] + g.mt && v.Ref?
      ensures v.id in c
    {
      assert IsRoot(g, v.id);
    }
  }

  /** A stage that begins with marking the running thread and the basic metatables, or with nothing. */
  lemma StageBounded(h0: Heap, g: G, w: G, c: set<Id>, todo: set<Id>)
    requires Between(g, w, true, todo) && Bounded(h0, w, c) && ClosedUnder(h0, c) && RootsIn(w, c)
    requires w.cur in w.heap && forall v :: v in w.mt && v.Ref? ==> v.id in w.heap
    ensures Bounded(h0, PropagateAll(w), c) && Bounded(h0, PropagateAll(MarkAgain(w)), c)
  {
    hide Tri, NoDangling, Bounded, ClosedUnder, AtomicDone, Stage;
    PropagateAllBounded(h0, w, c, true, Elems(g.tmudata));
    MarkAgainBetween(g, w, todo);
    RootValuesIn(w, c);
    MarkAllBounded(h0, w, [Ref(w.cur)] + w.mt, c);
    PropagateAllBounded(h0, MarkAgain(w), c, true, Elems(g.tmudata));
  }

  lemma Stage2Bounded(h0: Heap, g: G, c: set<Id>)
    requires Marking(h0, g, c)
    ensures Bounded(h0, Stage2(g), c)
  {
    hide Inv, Linked, Tri, NoDangling, Bounded, ClosedUnder, AtomicDone, Stage1, SameShape, KeepsMarks, RootsIn;
    Stage1Between(g);
    Stage1Bounded(h0, g, c);
    var s := Stage1(g);
    var w := WeakToGray(s);
    WeakToGrayKeeps(s, true, Elems(g.tmudata), Elems(g.weak) + Elems(g.grayagain));
    assert Bounded(h0, w, c) by { SameHeapBounded(h0, s, w, c); }
    RootsIn2(g, w, c);
    StageBounded(h0, g, w, c, Elems(s.grayagain));
  }

  lemma SameHeapBounded(h0: Heap, g: G, r: G, c: set<Id>)
    requires Bounded(h0, g, c) && r.heap == g.heap
    ensures Bounded(h0, r, c)
  {
  }

  lemma RootsIn2(g: G, r: G, c: set<Id>)
    requires Inv(g) && RootsIn(g, c) && Stage(g, r)
    ensures RootsIn(r, c) && r.cur in r.heap && forall v :: v in r.mt && v.Ref? ==> v.id in r.heap
  {
    assert forall x :: IsRoot(r, x) <==> IsRoot(g, x);
    forall v | v in r.mt && v.Ref?
      ensures v.id in r.heap
    {
      assert IsRoot(g, v.id);
    }
  }

  lemma Stage3Bounded(h0: Heap, g: G, c: set<Id>)
    requires Marking(h0, g, c)
    ensures Bounded(h0, Stage3(g), c)
  {
    hide Inv, Linked, Tri, NoDangling, Bounded, ClosedUnder, AtomicDone, Stage1, Stage2, SameShape, KeepsMarks, RootsIn;
    Stage2Between(g);
    Stage2Bounded(h0, g, c);
    var s := Stage2(g);
    var w := AgainToGray(s);
    AgainToGrayKeeps(s, true, Elems(g.tmudata), Elems(Stage1(g).grayagain));
    assert Bounded(h0, w, c) by { SameHeapBounded(h0, s, w, c); }
    RootsIn2(g, w, c);
    StageBounded(h0, g, w, c, {});
  }

  lemma {:induction false} PickNothing(h: Heap, l: seq<Id>)
    requires forall u :: u in l ==> !NeedsFinalizer(h, u)
    ensures Pick(h, l, true) == []
  {
    if l != [] { PickNothing(h, l[1..]); }
  }

  /** Without finalizers the stages that handle them do nothing but set the finalized bit of garbage. */
  lemma SeparateNothing(s: G)
    requires NoFinalizers(s) && s.main in s.rootgc
    ensures SeparateUdata(s).tmudata == [] && SameStrong(s.heap, SeparateUdata(s).heap)
    ensures forall o :: o in s.heap ==> SeparateUdata(s).heap[o].color == s.heap[o].color
  {
    hide SameStrong, IndexOf;
    PickNothing(s.heap, Behind(s.rootgc, s.main));
    LooksStrong(s.heap, SeparateUdata(s).heap);
  }

  lemma Stage5Bounded(h0: Heap, g: G, c: set<Id>)
    requires Marking(h0, g, c)
    ensures Bounded(h0, Stage5(g), c) && Stage5(g).tmudata == [] && Stage5(g) == Stage4(g)
  {
    hide Inv, Linked, Tri, NoDangling, Finishing, ClosedUnder, AtomicDone, Stage3, SameStrong, SameGlobals, RootsIn;
    Stage3Bounded(h0, g, c);
    Stage3Linked(g);
    Stage3Still(g);
    var s := Stage3(g);
    TmudataLinked(s);
    StrongTransitive3(h0, g, s);
    NoFinalizersSame(g, s);
    SeparateNothing(s);
    StrongTransitive(h0, s.heap, SeparateUdata(s).heap);
    Stage4Facts(g);
    assert Stage5(g) == Stage4(g) by { GrayDone(Stage4(g)); }
  }

  lemma StrongTransitive3(h0: Heap, g: G, s: G)
    requires SameStrong(h0, g.heap) && SameStrong(h0, s.heap)
    ensures SameStrong(g.heap, s.heap)
  {
    hide Edge, SameLooks;
    forall o | o in g.heap
      ensures SameLooks(g.heap[o].body, s.heap[o].body)
    {
      LooksBoth(h0[o].body, g.heap[o].body, s.heap[o].body);
    }
  }

  lemma LooksBoth(a: Body, b: Body, c: Body)
    requires SameLooks(a, b) && SameLooks(a, c)
    ensures SameLooks(b, c)
  {
    if a.Table? {
      forall i | 0 <= i < |a.nodes|
        ensures SameEntry(b.nodes[i], c.nodes[i])
      {
        assert SameEntry(a.nodes[i], b.nodes[i]) && SameEntry(a.nodes[i], c.nodes[i]);
      }
    }
  }

  lemma Stage3Still(g: G)
    requires Inv(g) && g.phase == Propagate && g.gray == []
    ensures Stage3(g).tmudata == g.tmudata
  {
    hide Inv, Tri, NoDangling, AtomicDone, Stage3;
    Stage3Between(g);
  }

  lemma GrayDone(s: G)
    requires Finishing(s) && s.tmudata == []
    ensures PropagateAll(MarkTmus(s, s.tmudata)) == s
  {
  }

  // What the program holds

  /** A key that is an object without a strong path to it. */
  ghost predicate Lost(g: G, v: Value) {
    v.Ref? && v.id in g.heap && !g.heap[v.id].body.String? && !Reachable(g, true, v.id)
  }

  /** The table has the string as a key, or as a value under a key that is not lost. */
  ghost predicate HoldsString(g: G, t: Id, o: Id) {
    t in g.heap && g.heap[t].body.Table?
    && (|| Ref(o) in g.heap[t].body.arr
        || exists n :: n in g.heap[t].body.nodes && !n.val.Nil?
                       && (n.key == Ref(o) || (n.val == Ref(o) && !Lost(g, n.key))))
  }

  ghost predicate StringHeld(g: G, o: Id) {
    o in g.heap && g.heap[o].body.String? && exists t :: Reachable(g, true, t) && HoldsString(g, t, o)
  }

  /** What a full cycle must keep: strongly reachable objects, and strings held by reachable tables, weak or not. */
  ghost predicate Kept(g: G, o: Id) {
    o in g.heap && (Reachable(g, true, o) || StringHeld(g, o))
  }

  ghost predicate SameRoots(g: G, r: G) {
    r.main == g.main && r.cur == g.cur && r.registry == g.registry && r.mt == g.mt && r.tmudata == g.tmudata
  }

  lemma ReachableSame(g: G, r: G, x: Id)
    requires SameStrong(g.heap, r.heap) && SameRoots(g, r)
    ensures Reachable(r, true, x) <==> Reachable(g, true, x)
  {
    assert forall y :: IsRoot(r, y) <==> IsRoot(g, y);
    if Reachable(g, true, x) {
      var p :| Path(g, true, p) && p[|p| - 1] == x;
      assert Path(r, true, p);
    }
    if Reachable(r, true, x) {
      var p :| Path(r, true, p) && p[|p| - 1] == x;
      assert Path(g, true, p);
    }
  }

  ghost function ReachSet(g: G): set<Id> { set o | o in g.heap && Reachable(g, true, o) }

  lemma ReachSetClosed(g: G)
    requires NoDangling(g.heap) && forall x :: IsRoot(g, x) ==> x in g.heap
    ensures ClosedUnder(g.heap, ReachSet(g)) && RootsIn(g, ReachSet(g))
  {
    forall x, y | x in ReachSet(g) && Edge(g.heap, true, x, y)
      ensures y in ReachSet(g)
    {
      ReachableExtends(g, true, x, y);
    }
    forall x | IsRoot(g, x)
      ensures x in ReachSet(g)
    {
      ReachableExtends(g, true, x, x);
    }
  }

  // The end of marking

  lemma StrongClosed(s: G, x: Id, y: Id)
    requires Finishing(s) && s.tmudata == [] && x in s.heap && !s.heap[x].color.White? && Edge(s.heap, true, x, y)
    ensures y in s.heap && !s.heap[y].color.White?
  {
    if x in s.weak {
      assert WeakDone(s.heap, s.heap[x].body);
    } else {
      MarkedSeesMarked(s, x);
    }
    assert Marked(s.heap, Ref(y));
  }

  /** When marking ends, exactly the strongly reachable objects are marked. */
  lemma MarkedIsReachable(g: G, s: G)
    requires Finishing(s) && s.tmudata == [] && SameRoots(g, s) && Bounded(g.heap, s, ReachSet(g))
    requires forall x :: IsRoot(s, x) ==> x in s.heap && !s.heap[x].color.White?
    ensures forall x :: x in s.heap ==> (!s.heap[x].color.White? <==> Reachable(g, true, x))
  {
    hide Finishing, SameStrong, Reachable, IsRoot, Edge;
    var marked := set x | x in s.heap && !s.heap[x].color.White?;
    forall x, y | x in marked && Edge(s.heap, true, x, y)
      ensures y in marked
    {
      StrongClosed(s, x, y);
    }
    ReachableStaysIn(s, true, marked);
    forall x | x in s.heap
      ensures !s.heap[x].color.White? <==> Reachable(g, true, x)
    {
      ReachableSame(g, s, x);
    }
  }

  // Strings in weak tables

  lemma {:induction false} TestedSame(h: Heap, h': Heap, nodes: seq<Node>)
    requires SameShape(h, h') && StringsOnly(h, h')
    ensures TestedInNodes(h', nodes) == TestedInNodes(h, nodes)
  {
    if nodes != [] {
      TestedSame(h, h', nodes[..|nodes| - 1]);
      ClearedSame(h, h', nodes[|nodes| - 1].key);
    }
  }

  lemma ClearedSame(h: Heap, h': Heap, v: Value)
    requires SameShape(h, h') && StringsOnly(h, h')
    ensures IsCleared(h', v, true) <==> IsCleared(h, v, true)
  {
    if v.Ref? && v.id in h { assert h'[v.id].body.String? <==> h[v.id].body.String?; }
  }

  ghost predicate TestedBy(h: Heap, l: seq<Id>, o: Id) {
    exists t :: t in l && t in h && h[t].body.Table? && Ref(o) in Tested(h, h[t].body)
  }

  /** Clearing marks exactly the strings that it comes across. */
  lemma {:induction false} ClearTablesColors(g: G, l: seq<Id>)
    requires NoDup(l) && forall t :: t in l ==> t in g.heap && g.heap[t].body.Table?
    ensures var r := ClearTables(g, l);
            forall o :: o in g.heap ==>
              (r.heap[o].color.White? <==> g.heap[o].color.White?
                                           && !(g.heap[o].body.String? && TestedBy(g.heap, l, o)))
    decreases |l|
  {
    hide Tested, ClearedBody, SameShape, StringsOnly;
    if l != [] {
      var t, rest := l[0], l[1..];
      TailNoDup(l);
      var n := ClearTable(g, t);
      ClearTableKeeps(g, t);
      assert t in l && forall x :: x in rest ==> x in l && x != t;
      ClearTablesColors(n, rest);
      forall o | o in g.heap
        ensures TestedBy(g.heap, l, o) <==> Ref(o) in Tested(g.heap, g.heap[t].body) || TestedBy(n.heap, rest, o)
        ensures n.heap[o].body.String? <==> g.heap[o].body.String?
      {
        TestedCons(g.heap, n.heap, l, o);
        assert n.heap[o].body.String? <==> g.heap[o].body.String? by { ShapeStrings(g.heap, n.heap, o); }
      }
      ClearTableColors(g, t);
    }
  }

  lemma ClearTableColors(g: G, t: Id)
    requires t in g.heap && g.heap[t].body.Table?
    ensures forall o :: o in g.heap ==>
              (ClearTable(g, t).heap[o].color.White? <==>
               g.heap[o].color.White? && !(g.heap[o].body.String? && Ref(o) in Tested(g.heap, g.heap[t].body)))
  {
  }

  lemma ShapeStrings(h: Heap, h': Heap, o: Id)
    requires SameShape(h, h') && o in h
    ensures h'[o].body.String? <==> h[o].body.String?
  {
  }

  lemma TestedCons(h: Heap, n: Heap, l: seq<Id>, o: Id)
    requires l != [] && NoDup(l) && SameShape(h, n) && StringsOnly(h, n)
    requires forall t :: t in l ==> t in h && h[t].body.Table?
    requires forall x :: x in h && x != l[0] ==> n[x].body == h[x].body
    ensures TestedBy(h, l, o) <==> Ref(o) in Tested(h, h[l[0]].body) || TestedBy(n, l[1..], o)
  {
    TailNoDup(l);
    assert l == [l[0]] + l[1..];
    forall t | t in l[1..]
      ensures t in n && n[t].body == h[t].body && Tested(n, h[t].body) == Tested(h, h[t].body)
    {
      TestedSame(h, n, h[t].body.nodes);
    }
  }

  lemma LooksEntries(b: Body, b': Body, n: Node)
    requires SameLooks(b, b') && b.Table? && !n.val.Nil?
    ensures b'.Table? && (n in b'.nodes <==> n in b.nodes)
  {
    if n in b.nodes {
      var i :| 0 <= i < |b.nodes| && b.nodes[i] == n;
      assert SameEntry(b.nodes[i], b'.nodes[i]);
    }
    if n in b'.nodes {
      var i :| 0 <= i < |b'.nodes| && b'.nodes[i] == n;
      assert SameEntry(b.nodes[i], b'.nodes[i]);
    }
  }

  /** When marking ends: `s` has the strong references of `g`, and exactly what `g` reaches is marked. */
  ghost predicate Marked5(g: G, s: G) {
    && Finishing(s) && s.tmudata == [] && SameStrong(g.heap, s.heap)
    && forall x :: x in s.heap ==> (!s.heap[x].color.White? <==> Reachable(g, true, x))
  }

  lemma TestedIsHeld(g: G, s: G, t: Id, o: Id)
    requires Marked5(g, s) && t in s.weak && t in s.heap && s.heap[t].body.Table?
             && Ref(o) in Tested(s.heap, s.heap[t].body)
    requires o in g.heap && g.heap[o].body.String?
    ensures StringHeld(g, o)
  {
    hide Reachable, Edge, Finishing, TmuMarked;
    assert t in Pending(s) by { WeakPending(s, t); }
    assert Reachable(g, true, t) by { WeakPending(s, t); }
    var b, b' := g.heap[t].body, s.heap[t].body;
    assert SameLooks(b, b');
    if Ref(o) in TestedInNodes(s.heap, b'.nodes) {
      TestedInNodesHolds(s.heap, b'.nodes, Ref(o));
      var n :| n in b'.nodes && !n.val.Nil?
          && (Ref(o) == n.key || (Ref(o) == n.val && !IsCleared(s.heap, n.key, true)));
      LooksEntries(b, b', n);
      LostIsCleared(g, s, n.key);
    }
    assert HoldsString(g, t, o);
  }

  lemma WeakPending(s: G, t: Id)
    requires Finishing(s) && t in s.weak
    ensures t in Pending(s) && t in s.heap && s.heap[t].color == Gray && s.heap[t].body.Table?
            && WeakDone(s.heap, s.heap[t].body)
  {
  }

  lemma LostIsCleared(g: G, s: G, v: Value)
    requires Marked5(g, s)
    ensures Lost(g, v) <==> IsCleared(s.heap, v, true)
  {
    hide Reachable, Edge, Finishing, TmuMarked;
    if v.Ref? && v.id in g.heap { assert SameLooks(g.heap[v.id].body, s.heap[v.id].body); }
  }

  lemma HeldIsTested(g: G, s: G, t: Id, o: Id)
    requires Marked5(g, s) && Reachable(g, true, t) && HoldsString(g, t, o) && o in g.heap
    ensures Reachable(g, true, o) || TestedBy(s.heap, s.weak, o)
  {
    hide Reachable, Finishing, StrongMarked;
    var b, b' := g.heap[t].body, s.heap[t].body;
    assert SameLooks(b, b');
    assert !s.heap[t].color.White?;
    if t !in s.weak {
      assert SeesMarked(s.heap, b') by { FinishingSees(s, t); }
      HeldSeen(g, s, t, o);
    } else {
      WeakPending(s, t);
      if Ref(o) in b.arr {
        if b'.bits.values {
          ArrayTested(s.heap, b', Ref(o));
        } else {
          assert SeesStrongly(s.heap, b', o);
          assert Marked(s.heap, Ref(o)) by { StrongEdgeMarked(s, b', o); }
        }
      } else {
        var n :| n in b.nodes && !n.val.Nil? && (n.key == Ref(o) || (n.val == Ref(o) && !Lost(g, n.key)));
        LooksEntries(b, b', n);
        LostIsCleared(g, s, n.key);
        TestedInNodesHolds(s.heap, b'.nodes, Ref(o));
      }
    }
  }

  lemma FinishingSees(s: G, t: Id)
    requires Finishing(s) && s.tmudata == [] && t in s.heap && !s.heap[t].color.White? && t !in s.weak
    ensures SeesMarked(s.heap, s.heap[t].body)
  {
    MarkedSeesMarked(s, t);
  }

  lemma StrongEdgeMarked(s: G, b: Body, o: Id)
    requires WeakDone(s.heap, b) && SeesStrongly(s.heap, b, o)
    ensures Marked(s.heap, Ref(o))
  {
  }

  lemma HeldSeen(g: G, s: G, t: Id, o: Id)
    requires Marked5(g, s) && HoldsString(g, t, o) && o in g.heap && SeesMarked(s.heap, s.heap[t].body)
    ensures Reachable(g, true, o)
  {
    hide Reachable, Finishing, Lost;
    var b, b' := g.heap[t].body, s.heap[t].body;
    assert SameLooks(b, b');
    if Ref(o) !in b.arr {
      var n :| n in b.nodes && !n.val.Nil? && (n.key == Ref(o) || n.val == Ref(o));
      LooksEntries(b, b', n);
    }
    assert Sees(s.heap, b', o);
  }

  lemma TestedIsKept(g: G, s: G, o: Id)
    requires Marked5(g, s) && o in g.heap
    ensures Kept(g, o) <==> Reachable(g, true, o) || (g.heap[o].body.String? && TestedBy(s.heap, s.weak, o))
  {
    hide Marked5, Reachable, HoldsString, Tested;
    if g.heap[o].body.String? && TestedBy(s.heap, s.weak, o) {
      var t :| t in s.weak && t in s.heap && s.heap[t].body.Table? && Ref(o) in Tested(s.heap, s.heap[t].body);
      TestedIsHeld(g, s, t, o);
    }
    if StringHeld(g, o) {
      var t :| Reachable(g, true, t) && HoldsString(g, t, o);
      HeldIsTested(g, s, t, o);
    }
  }

  // `atomic`

  lemma FinishingRoots(s: G)
    requires Finishing(s)
    ensures Marked(s.heap, Ref(s.cur)) && AllMarked(s.heap, s.mt)
  {
  }

  lemma Stage5Roots(g: G)
    requires Inv(g) && g.phase == Propagate && g.gray == [] && Stage5(g).tmudata == []
    ensures Linked(Stage5(g)) && Finishing(Stage5(g)) && SameGlobals(g, Stage5(g))
            && TmuMarked(Stage5(g).heap, Stage5(g).tmudata)
    ensures forall x :: IsRoot(Stage5(g), x) ==> x in Stage5(g).heap && !Stage5(g).heap[x].color.White?
  {
    hide Inv, Linked, Finishing, Stage4, PropagateAll, MarkTmus, IsRoot, SameGlobals, AllMarked;
    MarkedRoots(g);
    Stage4Facts(g);
    Stage5Facts(Stage4(g));
    GlobalsTransitive(g, Stage4(g), Stage5(g));
    FinishingRoots(Stage4(g));
    RootsMarked(g, Stage4(g), Stage5(g));
  }

  lemma AtomicMarks(g0: G, g: G)
    requires Marking(g0.heap, g, ReachSet(g0)) && SameRoots(g0, g)
    ensures Marked5(g0, Stage5(g)) && Stage5(g).white == g.white && Linked(Stage5(g))
            && TmuMarked(Stage5(g).heap, Stage5(g).tmudata)
  {
    hide Inv, Linked, Finishing, ClosedUnder, Stage5, Reachable, SameStrong, IsRoot, TmuMarked;
    Stage5Bounded(g0.heap, g, ReachSet(g0));
    Stage5Roots(g);
    MarkedIsReachable(g0, Stage5(g));
  }

  lemma ClearedKept(g0: G, s: G)
    requires Marked5(g0, s) && Linked(s)
    ensures var r := ClearTables(s, s.weak);
            forall o :: o in r.heap ==> (!r.heap[o].color.White? <==> Kept(g0, o))
  {
    hide Finishing, Reachable, Edge, Linked, Tested, StringHeld;
    forall t | t in s.weak
      ensures t in s.heap && s.heap[t].body.Table?
    {
      WeakPending(s, t);
    }
    FinishingNoDup(s);
    ClearTablesColors(s, s.weak);
    forall o | o in s.heap
      ensures s.heap[o].body.String? <==> g0.heap[o].body.String?
    {
      assert SameLooks(g0.heap[o].body, s.heap[o].body);
    }
    forall o | o in s.heap
      ensures Kept(g0, o) <==> Reachable(g0, true, o) || (g0.heap[o].body.String? && TestedBy(s.heap, s.weak, o))
    {
      TestedIsKept(g0, s, o);
    }
  }

  lemma FinishingNoDup(s: G)
    requires Finishing(s)
    ensures NoDup(s.weak)
  {
    WeakListNoDup(s);
  }

  /** After `atomic`, exactly the objects that are not to be kept are dead. */
  lemma AtomicExact(g0: G, g: G)
    requires Marking(g0.heap, g, ReachSet(g0)) && SameRoots(g0, g)
    ensures Atomic(g).heap.Keys == g0.heap.Keys
    ensures forall o :: Alive(Atomic(g), o) <==> Kept(g0, o)
  {
    hide Inv, Linked, Marked5, Finishing, ClosedUnder, ClosedMarks;
    hide TmuMarked, Stage5, ClearTables, Kept, SameStrong, SameGlobals, IsRoot;
    AtomicMarks(g0, g);
    var s := Stage5(g);
    Marked5Parts(g0, s);
    Stage6Facts(s);
    ClearedKept(g0, s);
    ClearKeys(s);
    assert forall o :: Kept(g0, o) ==> o in g0.heap by { KeptInHeap(g0); }
    assert Stage6(g).white == s.white by { ClearWhite(s); }
  }

  lemma Marked5Parts(g: G, s: G)
    requires Marked5(g, s)
    ensures Finishing(s) && s.heap.Keys == g.heap.Keys
  {
  }

  lemma ClearKeys(s: G)
    ensures ClearTables(s, s.weak).heap.Keys == s.heap.Keys
  {
  }

  lemma KeptInHeap(g: G)
    ensures forall o :: Kept(g, o) ==> o in g.heap
  {
  }

  lemma ClearWhite(s: G)
    requires Finishing(s) && TmuMarked(s.heap, s.tmudata)
    ensures ClearTables(s, s.weak).white == s.white
  {
    MarkedClosed(s);
  }
}
