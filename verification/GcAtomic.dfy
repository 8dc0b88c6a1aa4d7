/** `atomic`: the uninterrupted end of the mark phase. */
module GcAtomic {
  import opened GcState
  import opened GcLists
  import opened GcMark
  import opened GcPropagate

  predicate HasGray(g: G) {
    g.gray != [] && g.gray[0] in g.heap && Traversable(g.heap[g.gray[0]].body)
  }

  /** `propagateall`. */
  function PropagateAll(g: G): (r: G)
    ensures r.heap.Keys == g.heap.Keys
    decreases Whites(g.heap), |g.gray|
  {
    if HasGray(g) then PropagateAll(PropagateMark(g)) else g
  }

  /** `remarkupvals`: open upvalues that are marked mark their current value again. */
  function RemarkUpvals(g: G, uvs: seq<Id>): (r: G)
    ensures r.heap.Keys == g.heap.Keys
    decreases |uvs|
  {
    if uvs == [] then g
    else if uvs[0] in g.heap && g.heap[uvs[0]].color == Gray && g.heap[uvs[0]].body.Upval? then
      RemarkUpvals(Put(g, MarkValue(Mk(g), UpvalValue(g.heap, g.heap[uvs[0]].body.loc))), uvs[1..])
    else RemarkUpvals(g, uvs[1..])
  }

  /** The strong references of a weak table were marked after it was last linked. */
  ghost predicate WeakDone(h: Heap, b: Body) {
    IsWeak(b) && b.bits == b.mode && StrongMarked(h, b)
  }

  /** Everything in `weak` and `grayagain` but the objects of `todo` was traversed in this atomic step. */
  ghost predicate AtomicDone(g: G, todo: set<Id>) {
    && (forall o :: o in g.weak && o !in todo ==> o in g.heap && WeakDone(g.heap, g.heap[o].body))
    && (forall o :: o in g.grayagain && o !in todo ==>
                      o in g.heap && g.heap[o].body.Thread? && SlotsMarked(g.heap, g.heap[o].body))
  }

  lemma StrongStaysMarked(h: Heap, h': Heap, b: Body)
    requires KeepsMarks(h, h') && StrongMarked(h, b) && b.Table?
    ensures StrongMarked(h', b)
  {
    forall x
      ensures SeesStrongly(h', b, x) ==> Marked(h', Ref(x))
    {
      assert SeesStrongly(h', b, x) ==> SeesStrongly(h, b, x);
    }
  }

  lemma DoneStays(g: G, g': G, todo: set<Id>)
    requires AtomicDone(g, todo) && KeepsMarks(g.heap, g'.heap)
    requires g'.weak == g.weak && g'.grayagain == g.grayagain
    requires forall o :: o in g.weak + g.grayagain && o !in todo && o in g.heap ==>
                           o in g'.heap && g'.heap[o].body == g.heap[o].body
    ensures AtomicDone(g', todo)
  {
    forall o | o in g.weak && o !in todo
      ensures WeakDone(g'.heap, g'.heap[o].body)
    {
      StrongStaysMarked(g.heap, g'.heap, g.heap[o].body);
    }
    forall o | o in g.grayagain && o !in todo
      ensures SlotsMarked(g'.heap, g'.heap[o].body)
    {
      SlotsStayMarked(g.heap, g'.heap, g.heap[o].body);
    }
  }

  lemma MarkingLists(g: G)
    requires g.gray != [] && g.gray[0] in g.heap && Traversable(g.heap[g.gray[0]].body)
    ensures PropagateMark(g).weak == Pop(g).weak && PropagateMark(g).grayagain == Pop(g).grayagain
  {
  }

  lemma PropagateOthers(g: G, uv: bool, except: set<Id>)
    requires Tri(g, uv, except) && g.gray != [] && NoDangling(g.heap)
    ensures HasGray(g)
    ensures forall o :: o in g.heap && o != g.gray[0] ==> PropagateMark(g).heap[o].body == g.heap[o].body
    ensures g.gray[0] !in g.weak && g.gray[0] !in g.grayagain
  {
    hide Tri, NoDangling, AllMarked, Marks, Marking, PropagateMark, Pop, Children, ListsOk;
    TriLists(g, uv, except);
    GrayApart(g);
    MarkingKeepsTri(g, uv, except);
    PropagateStep(g);
  }

  lemma GrayApart(g: G)
    requires ListsOk(g) && g.gray != []
    ensures g.gray[0] !in g.weak && g.gray[0] !in g.grayagain
  {
    var p, o := Pending(g), g.gray[0];
    assert p[0] == o;
    forall i | 0 <= i < |g.weak|
      ensures g.weak[i] != o
    {
      assert p[|g.gray| + |g.grayagain| + i] == g.weak[i];
    }
    forall i | 0 <= i < |g.grayagain|
      ensures g.grayagain[i] != o
    {
      assert p[|g.gray| + i] == g.grayagain[i];
    }
  }

  lemma TraversedDone(g: G, uv: bool, except: set<Id>)
    requires Tri(g, uv, except) && g.gray != [] && NoDangling(g.heap)
    ensures HasGray(g)
    ensures var o, h := g.gray[0], PropagateMark(g).heap;
            && o in h
            && (IsWeak(g.heap[o].body) ==> WeakDone(h, h[o].body))
            && (g.heap[o].body.Thread? ==> h[o].body.Thread? && SlotsMarked(h, h[o].body))
  {
    var o := g.gray[0];
    MarkingKeepsTri(g, uv, except);
    var b := g.heap[o].body;
    hide Tri, NoDangling, Marks, PropagateMark, Pop;
    PropagateStep(g);
    var h := PropagateMark(g).heap;
    assert AllMarked(h, Children(b));
    ChildrenMarked(h, b);
    if b.Table? { TraversedSeesNoMore(h, b); }
  }

  lemma TriLists(g: G, uv: bool, except: set<Id>)
    requires Tri(g, uv, except)
    ensures ListsOk(g)
  {
  }

  /** `propagatemark` leaves what it traverses done. */
  lemma PropagateKeepsDone(g: G, uv: bool, except: set<Id>, todo: set<Id>)
    requires Tri(g, uv, except) && g.gray != [] && NoDangling(g.heap) && AtomicDone(g, todo)
    ensures HasGray(g) && AtomicDone(PropagateMark(g), todo)
  {
    hide Tri, NoDangling, SlotsMarked, WeakDone, SameShape, PropagateMark, Traversable;
    PropagateKeepsTri(g, uv, except);
    PropagateOthers(g, uv, except);
    TraversedDone(g, uv, except);
    MarkingLists(g);
    var r := PropagateMark(g);
    assert ListsOk(g) by { TriLists(g, uv, except); }
    assert forall o :: o in g.weak + g.grayagain ==> o in Pending(g);
    DoneStays(g, r.(weak := g.weak, grayagain := g.grayagain), todo);
  }

  /** What every stage of `atomic` keeps of the state it starts from. */
  ghost predicate Stage(g: G, r: G) {
    && r == g.(heap := r.heap, gray := r.gray, grayagain := r.grayagain, weak := r.weak)
    && SameShape(g.heap, r.heap)
    && KeepsMarks(g.heap, r.heap)
  }

  lemma StageTransitive(a: G, b: G, c: G)
    requires Stage(a, b) && Stage(b, c)
    ensures Stage(a, c)
  {
    SameShapeTransitive(a.heap, b.heap, c.heap);
  }

  /** `propagateall` empties the gray list and keeps the invariant. */
  lemma {:induction false} PropagateAllKeeps(g: G, uv: bool, except: set<Id>, todo: set<Id>)
    requires Tri(g, uv, except) && NoDangling(g.heap) && AtomicDone(g, todo)
    ensures var r := PropagateAll(g);
            Stage(g, r) && r.gray == [] && Tri(r, uv, except) && NoDangling(r.heap) && AtomicDone(r, todo)
    decreases Whites(g.heap), |g.gray|
  {
    if g.gray != [] {
      PropagateKeepsTri(g, uv, except);
      PropagateKeepsDone(g, uv, except, todo);
      MarkingLists(g);
      var n := PropagateMark(g);
      assert Stage(g, n);
      PropagateAllKeeps(n, uv, except, todo);
      StageTransitive(g, n, PropagateAll(n));
    }
  }

  /** The marked open upvalues that are still to be remarked are among `uvs`. */
  ghost predicate RemarkLeft(h: Heap, uvs: seq<Id>) {
    forall o :: o in h && IsOpen(h[o].body) && h[o].color == Gray ==> o in uvs || SlotsMarked(h, h[o].body)
  }

  lemma RemarkOne(g: G, uvs: seq<Id>, except: set<Id>, todo: set<Id>)
    requires Tri(g, false, except) && NoDangling(g.heap) && AtomicDone(g, todo) && RemarkLeft(g.heap, uvs)
    requires uvs != [] && uvs[0] in g.heap && g.heap[uvs[0]].color == Gray && g.heap[uvs[0]].body.Upval?
    ensures var n := Put(g, MarkValue(Mk(g), UpvalValue(g.heap, g.heap[uvs[0]].body.loc)));
            Stage(g, n) && Tri(n, false, except) && NoDangling(n.heap) && AtomicDone(n, todo)
                && RemarkLeft(n.heap, uvs[1..])
  {
    hide ListsOk, ObjTri, NoDup, SlotsMarked, WeakDone;
    var o := uvs[0];
    var v := UpvalValue(g.heap, g.heap[o].body.loc);
    assert v.Ref? ==> Refers(g.heap, o, v.id);
    MarkValueMarks(Mk(g), v);
    var m := MarkValue(Mk(g), v);
    MarksKeepTri(g, false, except, m);
    NoDanglingSame(g.heap, m.heap);
    DoneStays(g, Put(g, m), todo);
    RemarkOneLeft(g.heap, m.heap, Added(Mk(g), m), uvs, v);
  }

  lemma RemarkOneLeft(h: Heap, h': Heap, added: seq<Id>, uvs: seq<Id>, v: Value)
    requires RemarkLeft(h, uvs) && OnlyMarks(h, h') && Marked(h', v)
    requires forall x :: x in h && h'[x].color != h[x].color ==> JustMarked(h', added, x)
    requires uvs != [] && uvs[0] in h && h[uvs[0]].body.Upval? && v == UpvalValue(h, h[uvs[0]].body.loc)
    ensures RemarkLeft(h', uvs[1..])
  {
    forall x | x in h' && IsOpen(h'[x].body) && h'[x].color == Gray
      ensures x in uvs[1..] || SlotsMarked(h', h'[x].body)
    {
      UpvalValueSame(h, h', h'[x].body.loc);
      if h[x].color == Gray && x != uvs[0] && x !in uvs[1..] {
        assert x !in uvs;
        SlotsStayMarked(h, h', h[x].body);
      }
    }
  }

  /** `remarkupvals` over all open upvalues leaves the value of every marked one marked. */
  lemma {:induction false} RemarkKeeps(g: G, uvs: seq<Id>, except: set<Id>, todo: set<Id>)
    requires Tri(g, false, except) && NoDangling(g.heap) && AtomicDone(g, todo) && RemarkLeft(g.heap, uvs)
    ensures var r := RemarkUpvals(g, uvs);
            Stage(g, r) && Tri(r, true, except) && NoDangling(r.heap) && AtomicDone(r, todo)
    decreases |uvs|
  {
    if uvs == [] {
      forall o | o in g.heap && o !in except
        ensures ObjTri(g, true, o)
      {
        assert ObjTri(g, false, o);
      }
    } else if uvs[0] in g.heap && g.heap[uvs[0]].color == Gray && g.heap[uvs[0]].body.Upval? {
      var n := Put(g, MarkValue(Mk(g), UpvalValue(g.heap, g.heap[uvs[0]].body.loc)));
      RemarkOne(g, uvs, except, todo);
      RemarkKeeps(n, uvs[1..], except, todo);
      StageTransitive(g, n, RemarkUpvals(n, uvs[1..]));
    } else {
      RemarkKeeps(g, uvs[1..], except, todo);
    }
  }

  /** `gray = weak`: weak tables are to be traversed again. */
  function WeakToGray(g: G): G { g.(gray := g.weak, weak := []) }

  /** `gray = grayagain`. */
  function AgainToGray(g: G): G { g.(gray := g.grayagain, grayagain := []) }

  lemma ReorderKeepsTri(g: G, g': G, uv: bool, except: set<Id>)
    requires Tri(g, uv, except)
    requires g' == g.(gray := g'.gray, grayagain := g'.grayagain, weak := g'.weak)
    requires NoDup(Pending(g'))
    requires forall x :: x in Pending(g) <==> x in Pending(g')
    requires (forall x :: x in g'.weak ==> x in g.weak) && (forall x :: x in g'.grayagain ==> x in g.grayagain)
    ensures Tri(g', uv, except)
  {
    forall x | x in g.heap && x !in except
      ensures ObjTri(g', uv, x)
    {
      ObjTriKept(g, g', uv, x);
    }
  }

  lemma WeakToGrayKeeps(g: G, uv: bool, except: set<Id>, todo: set<Id>)
    requires Tri(g, uv, except) && g.gray == [] && AtomicDone(g, todo)
    ensures Tri(WeakToGray(g), uv, except) && AtomicDone(WeakToGray(g), set x | x in g.grayagain)
  {
    var r := WeakToGray(g);
    assert Pending(g) == g.grayagain + g.weak && Pending(r) == g.weak + g.grayagain;
    SwapNoDup(g.grayagain, g.weak);
    ReorderKeepsTri(g, r, uv, except);
  }

  lemma AgainToGrayKeeps(g: G, uv: bool, except: set<Id>, todo: set<Id>)
    requires Tri(g, uv, except) && g.gray == [] && AtomicDone(g, todo)
    requires forall x :: x in todo ==> x in g.grayagain
    ensures Tri(AgainToGray(g), uv, except) && AtomicDone(AgainToGray(g), {})
  {
    var r := AgainToGray(g);
    assert Pending(g) == g.grayagain + g.weak && Pending(r) == g.grayagain + g.weak;
    ReorderKeepsTri(g, r, uv, except);
    forall o | o in g.weak
      ensures o !in todo
    {
      var i :| 0 <= i < |g.weak| && g.weak[i] == o;
      forall j | 0 <= j < |g.grayagain|
        ensures g.grayagain[j] != o
      {
        assert Pending(g)[j] != Pending(g)[|g.grayagain| + i];
      }
    }
  }
}
