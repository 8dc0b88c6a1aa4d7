/** `propagatemark`, and the tri-colour invariant that it keeps. */
module GcPropagate {
  import opened GcState
  import opened GcLists
  import opened GcMark

  function Mk(g: G): Marker { Marker(g.heap, g.gray) }

  function Put(g: G, m: Marker): G { g.(heap := m.heap, gray := m.gray) }

  /** The objects that `traversetable` marks in the nodes, last node first. */
  function NodeMarks(nodes: seq<Node>, mode: Mode): seq<Value> {
    if nodes == [] then []
    else
      var n := nodes[|nodes| - 1];
      (if n.val.Nil? then []
       else (if mode.keys then [] else [n.key]) + (if mode.values then [] else [n.val]))
      + NodeMarks(nodes[..|nodes| - 1], mode)
  }

  function Backwards(vs: seq<Value>): (r: seq<Value>)
    ensures |r| == |vs| && forall i :: 0 <= i < |r| ==> r[i] == vs[|vs| - 1 - i]
  {
    if vs == [] then [] else [vs[|vs| - 1]] + Backwards(vs[..|vs| - 1])
  }

  /** What traversing an object marks, in order. */
  function Children(b: Body): seq<Value>
    requires Traversable(b)
  {
    match b
    case Closure(env, slots) => [env] + slots
    case Proto(slots) => slots
    case Thread(gt, stack, _) => [gt] + stack
    case Table(meta, mode, _, arr, nodes) =>
      if mode.keys && mode.values then [meta]
      else [meta] + (if mode.values then [] else Backwards(arr)) + NodeMarks(nodes, mode)
  }

  /** `removeentry`: the key of an empty entry is dead. */
  function RemoveEntry(n: Node): Node {
    if n.key.Ref? then Node(DeadKey(n.key.id), Nil) else Node(n.key, Nil)
  }

  function RemoveEmpty(nodes: seq<Node>): (r: seq<Node>)
    ensures |r| == |nodes|
    ensures forall i :: 0 <= i < |r| ==> r[i] == if nodes[i].val.Nil? then RemoveEntry(nodes[i]) else nodes[i]
  {
    seq(|nodes|, i requires 0 <= i < |nodes| => if nodes[i].val.Nil? then RemoveEntry(nodes[i]) else nodes[i])
  }

  /** A table's body after its traversal: weak bits recorded, empty entries removed. */
  function Traversed(b: Body): Body
    requires b.Table?
  {
    b.(bits := if b.mode.keys || b.mode.values then b.mode else b.bits,
       nodes := if b.mode.keys && b.mode.values then b.nodes else RemoveEmpty(b.nodes))
  }

  predicate IsWeak(b: Body) {
    b.Table? && (b.mode.keys || b.mode.values)
  }

  function Rebody(h: Heap, o: Id, b: Body): Heap
    requires o in h
  {
    h[o := h[o].(body := b)]
  }

  lemma RebodyWhites(h: Heap, o: Id, b: Body)
    requires o in h
    ensures Whites(Rebody(h, o, b)) == Whites(h)
  {
  }

  /** The first gray object leaves the list, turned black or moved to another list. */
  function Pop(g: G): G
    requires g.gray != [] && g.gray[0] in g.heap
  {
    var o := g.gray[0];
    var b := g.heap[o].body;
    g.(gray := g.gray[1..],
       grayagain := if b.Thread? then [o] + g.grayagain else g.grayagain,
       weak := if IsWeak(b) then [o] + g.weak else g.weak,
       heap := Paint(g.heap, o, if b.Thread? || IsWeak(b) then Gray else Black))
  }

  /** Traverse the first gray object. */
  function PropagateMark(g: G): (r: G)
    requires g.gray != [] && g.gray[0] in g.heap && Traversable(g.heap[g.gray[0]].body)
    ensures r.heap.Keys == g.heap.Keys
    ensures Whites(r.heap) <= Whites(g.heap)
    ensures Whites(r.heap) == Whites(g.heap) ==> |r.gray| < |g.gray|
  {
    var o := g.gray[0];
    var b := g.heap[o].body;
    var h := Put(Pop(g), MarkAll(Mk(Pop(g)), Children(b)));
    if b.Table? then RebodyWhites(h.heap, o, Traversed(b)); h.(heap := Rebody(h.heap, o, Traversed(b))) else h
  }

  // The tri-colour invariant

  function Pending(g: G): seq<Id> { g.gray + g.grayagain + g.weak }

  /** Objects in the three lists are gray, and no object is linked twice. */
  ghost predicate ListsOk(g: G) {
    && NoDup(Pending(g))
    && (forall o :: o in Pending(g) ==> o in g.heap && g.heap[o].color == Gray && Traversable(g.heap[o].body))
    && (forall o :: o in g.weak ==> g.heap[o].body.Table?)
    && (forall o :: o in g.grayagain ==> g.heap[o].body.Thread? || g.heap[o].body.Table?)
  }

  /**
    A black object holds nothing white, and is no thread, open upvalue or string. A gray one waits in
    a list, or is a string, or is an open upvalue; `uv` says that open upvalues were remarked.
   */
  ghost predicate ObjTri(g: G, uv: bool, o: Id)
    requires o in g.heap
  {
    var b := g.heap[o].body;
    match g.heap[o].color
    case White(w) => w == g.white
    case Black => !b.Thread? && !IsOpen(b) && !b.String? && SlotsMarked(g.heap, b)
    case Gray => o in Pending(g) || b.String? || (IsOpen(b) && (uv ==> SlotsMarked(g.heap, b)))
  }

  /** The invariant of the mark phase, with the objects of `except` left out. */
  ghost predicate Tri(g: G, uv: bool, except: set<Id>) {
    && ListsOk(g)
    && forall o :: o in g.heap && o !in except ==> ObjTri(g, uv, o)
  }

  ghost predicate SeesNoMore(h: Heap, b: Body, b': Body) {
    b.Table? && b'.Table? && b'.meta == b.meta && b'.mode == b.mode && forall x :: Sees(h, b', x) ==> Sees(h, b, x)
  }

  /** Objects keep their contents, except that tables may lose entries. */
  ghost predicate SameShape(h: Heap, h': Heap) {
    && h'.Keys == h.Keys
    && forall o :: o in h ==> h'[o].fixed == h[o].fixed
                              && (h'[o].body == h[o].body || SeesNoMore(h, h[o].body, h'[o].body))
  }

  lemma SameShapeTransitive(a: Heap, b: Heap, c: Heap)
    requires SameShape(a, b) && SameShape(b, c)
    ensures SameShape(a, c)
  {
    forall o | o in a
      ensures c[o].fixed == a[o].fixed && (c[o].body == a[o].body || SeesNoMore(a, a[o].body, c[o].body))
    {
      assert b[o].fixed == a[o].fixed;
      if c[o].body != a[o].body {
        assert a[o].body.Table? && b[o].body.Table? && c[o].body.Table?;
        forall x | Sees(a, c[o].body, x)
          ensures Sees(a, a[o].body, x)
        {
          assert Sees(b, c[o].body, x);
          assert Sees(b, b[o].body, x);
          assert Sees(a, b[o].body, x);
        }
      }
    }
  }

  lemma SameShapeNoDangling(h: Heap, h': Heap)
    requires SameShape(h, h') && NoDangling(h)
    ensures NoDangling(h')
  {
    forall o, x | Refers(h', o, x)
      ensures x in h'
    {
      if h'[o].body.Upval? {
        assert h[o].body == h'[o].body;
        UpvalShape(h, h', h[o].body.loc);
      }
      assert Sees(h, h'[o].body, x);
      assert Refers(h, o, x);
    }
  }

  lemma UpvalShape(h: Heap, h': Heap, loc: Loc)
    requires SameShape(h, h')
    ensures UpvalValue(h, loc) == UpvalValue(h', loc)
  {
  }

  lemma {:induction false} NodeMarksHolds(nodes: seq<Node>, mode: Mode, v: Value)
    ensures v in NodeMarks(nodes, mode) <==>
            exists n :: n in nodes && !n.val.Nil? && ((!mode.keys && n.key == v) || (!mode.values && n.val == v))
  {
    if nodes != [] {
      var k := |nodes| - 1;
      NodeMarksHolds(nodes[..k], mode, v);
      assert nodes == nodes[..k] + [nodes[k]];
    }
  }

  /** Traversing an object marks exactly its strong references. */
  lemma ChildrenAreStrong(h: Heap, b: Body, x: Id)
    requires Traversable(b)
    ensures Ref(x) in Children(b) <==> SeesStrongly(h, b, x)
  {
    if b.Table? {
      NodeMarksHolds(b.nodes, b.mode, Ref(x));
      var r := Backwards(b.arr);
      assert Ref(x) in r <==> Ref(x) in b.arr by {
        if Ref(x) in b.arr {
          var i :| 0 <= i < |b.arr| && b.arr[i] == Ref(x);
          assert r[|r| - 1 - i] == Ref(x);
        }
      }
    }
  }

  lemma ChildrenInHeap(h: Heap, o: Id)
    requires NoDangling(h) && o in h && Traversable(h[o].body)
    ensures forall v :: v in Children(h[o].body) && v.Ref? ==> v.id in h
  {
    forall v | v in Children(h[o].body) && v.Ref?
      ensures v.id in h
    {
      ChildrenAreStrong(h, h[o].body, v.id);
      assert Refers(h, o, v.id);
    }
  }

  /** Marking keeps the invariant. */
  lemma MarksKeepTri(g: G, uv: bool, except: set<Id>, m: Marker)
    requires Tri(g, uv, except) && Marks(Mk(g), m)
    ensures Tri(Put(g, m), uv, except)
  {
    var g' := Put(g, m);
    var added := Added(Mk(g), m);
    assert Pending(g') == added + Pending(g);
    ConcatNoDup(added, Pending(g));
    forall o | o in g.heap && o !in except
      ensures ObjTri(g', uv, o)
    {
      assert ObjTri(g, uv, o);
      var b := g.heap[o].body;
      if b.Upval? { UpvalValueSame(g.heap, g'.heap, b.loc); }
      if m.heap[o].color == g.heap[o].color {
        if SlotsMarked(g.heap, b) { SlotsStayMarked(g.heap, g'.heap, b); }
      } else {
        assert JustMarked(m.heap, added, o);
      }
    }
  }

  /** Popping moves the first gray object to another list, or to none if it turns black. */
  lemma PopLists(g: G)
    requires ListsOk(g) && g.gray != []
    ensures NoDup(Pending(Pop(g)))
    ensures forall x :: x in Pending(Pop(g)) ==> x in Pending(g)
    ensures forall x :: x in Pending(g) && x != g.gray[0] ==> x in Pending(Pop(g))
    ensures g.gray[0] in Pending(Pop(g)) <==> Pop(g).heap[g.gray[0]].color == Gray
    ensures g.gray[0] in Pending(g)
  {
    var o, rest := g.gray[0], g.gray[1..];
    assert g.gray == [o] + rest;
    assert Pending(g)[0] == o;
    if g.heap[o].body.Thread? {
      assert Pending(g) == [o] + (rest + (g.grayagain + g.weak));
      assert Pending(Pop(g)) == rest + ([o] + (g.grayagain + g.weak));
      InsertNoDup(o, rest, g.grayagain + g.weak);
    } else if IsWeak(g.heap[o].body) {
      assert Pending(g) == [o] + ((rest + g.grayagain) + g.weak);
      assert Pending(Pop(g)) == (rest + g.grayagain) + ([o] + g.weak);
      InsertNoDup(o, rest + g.grayagain, g.weak);
    } else {
      assert Pending(g) == [o] + (rest + g.grayagain + g.weak);
      assert Pending(Pop(g)) == rest + g.grayagain + g.weak;
      assert Pending(Pop(g)) == Pending(g)[1..];
    }
  }

  lemma PopListsOk(g: G)
    requires ListsOk(g) && g.gray != []
    ensures ListsOk(Pop(g))
    ensures OnlyGrayToBlack(g.heap, Pop(g).heap)
  {
    PopLists(g);
    var g' := Pop(g);
    forall x | x in Pending(g')
      ensures x in g'.heap && g'.heap[x].color == Gray && Traversable(g'.heap[x].body)
    {
      assert x in Pending(g);
    }
    assert forall x :: x in g.weak || x in g.grayagain || x in g.gray ==> x in Pending(g);
  }

  lemma PopKeepsTri(g: G, uv: bool, except: set<Id>)
    requires Tri(g, uv, except) && g.gray != []
    ensures Tri(Pop(g), uv, except + {g.gray[0]})
    ensures OnlyGrayToBlack(g.heap, Pop(g).heap)
  {
    var o := g.gray[0];
    PopLists(g);
    PopListsOk(g);
    forall x | x in g.heap && x !in except + {o}
      ensures ObjTri(Pop(g), uv, x)
    {
      assert ObjTri(g, uv, x);
      ObjTriKept(g, Pop(g), uv, x);
    }
  }

  /** An object's clause only depends on its own colour and on marks that stay. */
  lemma ObjTriKept(g: G, g': G, uv: bool, x: Id)
    requires x in g.heap && x in g'.heap && ObjTri(g, uv, x) && g'.heap[x] == g.heap[x]
    requires KeepsMarks(g.heap, g'.heap) && g'.white == g.white
    requires x in Pending(g) ==> x in Pending(g')
    requires g.heap[x].body.Upval? ==> UpvalValue(g.heap, g.heap[x].body.loc) == UpvalValue(g'.heap, g.heap[x].body.loc)
    ensures ObjTri(g', uv, x)
  {
    if SlotsMarked(g.heap, g.heap[x].body) {
      SlotsStayMarked(g.heap, g'.heap, g.heap[x].body);
    }
  }

  ghost predicate OnlyGrayToBlack(h: Heap, h': Heap) {
    SameButColor(h, h') && forall o ::
          o in h ==> h'[o].color == h[o].color || (h[o].color == Gray && h'[o].color == Black)
  }

  /** The strong references of a body are marked. */
  ghost predicate StrongMarked(h: Heap, b: Body) {
    forall x :: SeesStrongly(h, b, x) ==> Marked(h, Ref(x))
  }

  lemma ChildrenMarked(h: Heap, b: Body)
    requires Traversable(b) && AllMarked(h, Children(b))
    ensures StrongMarked(h, b)
    ensures !IsWeak(b) ==> SlotsMarked(h, if b.Table? then Traversed(b) else b)
  {
    forall x
      ensures SeesStrongly(h, b, x) ==> Marked(h, Ref(x))
    {
      ChildrenAreStrong(h, b, x);
    }
    if b.Table? && !IsWeak(b) {
      var t := Traversed(b);
      forall v | v in b.arr
        ensures Marked(h, v)
      {
        if v.Ref? { assert SeesStrongly(h, b, v.id); }
      }
      forall n | n in t.nodes
        ensures Marked(h, n.key) && Marked(h, n.val)
      {
        var i :| 0 <= i < |t.nodes| && t.nodes[i] == n;
        var m := b.nodes[i];
        assert m in b.nodes;
        if !m.val.Nil? {
          if m.key.Ref? { assert SeesStrongly(h, b, m.key.id); }
          if m.val.Ref? { assert SeesStrongly(h, b, m.val.id); }
        }
      }
      if b.meta.Ref? { assert SeesStrongly(h, b, b.meta.id); }
    }
  }

  lemma TraversedSeesNoMore(h: Heap, b: Body)
    requires b.Table?
    ensures SeesNoMore(h, b, Traversed(b))
    ensures forall x :: SeesStrongly(h, Traversed(b), x) ==> SeesStrongly(h, b, x)
  {
    var t := Traversed(b);
    forall n | n in t.nodes && !n.val.Nil?
      ensures n in b.nodes
    {
      var i :| 0 <= i < |t.nodes| && t.nodes[i] == n;
      assert b.nodes[i] in b.nodes;
    }
  }

  /** The state between taking an object off the gray list and recording its traversal. */
  function Marking(g: G): G
    requires g.gray != [] && g.gray[0] in g.heap && Traversable(g.heap[g.gray[0]].body)
  {
    Put(Pop(g), MarkAll(Mk(Pop(g)), Children(g.heap[g.gray[0]].body)))
  }

  lemma MarkingKeepsTri(g: G, uv: bool, except: set<Id>)
    requires Tri(g, uv, except) && g.gray != [] && NoDangling(g.heap)
    ensures var o := g.gray[0];
            && o in g.heap && Traversable(g.heap[o].body)
            && Tri(Marking(g), uv, except + {o})
            && AllMarked(Marking(g).heap, Children(g.heap[o].body))
            && Marks(Mk(Pop(g)), Mk(Marking(g)))
            && SameButColor(g.heap, Marking(g).heap)
            && Marking(g).heap[o].color == Pop(g).heap[o].color
            && (Marking(g).heap[o].color == Gray ==> o in Pending(Marking(g)))
  {
    var o := g.gray[0];
    assert o in Pending(g);
    PopLists(g);
    PopKeepsTri(g, uv, except);
    NoDanglingSame(g.heap, Pop(g).heap);
    ChildrenInHeap(g.heap, o);
    MarkAllMarks(Mk(Pop(g)), Children(g.heap[o].body));
    var m := MarkAll(Mk(Pop(g)), Children(g.heap[o].body));
    MarksKeepTri(Pop(g), uv, except + {o}, m);
    assert Mk(Marking(g)) == m;
  }

  lemma RebodyKeepsTri(g: G, uv: bool, except: set<Id>, o: Id, b: Body)
    requires Tri(g, uv, except) && o in except && o in g.heap && g.heap[o].body.Table? && b.Table?
    ensures Tri(g.(heap := Rebody(g.heap, o, b)), uv, except)
  {
    var g' := g.(heap := Rebody(g.heap, o, b));
    assert Pending(g') == Pending(g);
    forall x | x in g.heap && x !in except
      ensures ObjTri(g', uv, x)
    {
      ObjTriKept(g, g', uv, x);
    }
  }

  lemma PropagateStep(g: G)
    requires g.gray != [] && g.gray[0] in g.heap && Traversable(g.heap[g.gray[0]].body)
    requires SameButColor(g.heap, Marking(g).heap)
    ensures var o := g.gray[0];
            var b := g.heap[o].body;
            PropagateMark(g) == if b.Table? then Marking(g).(heap := Rebody(Marking(g).heap, o, Traversed(b)))
                                else Marking(g)
    ensures SameShape(g.heap, PropagateMark(g).heap)
  {
    if g.heap[g.gray[0]].body.Table? {
      TraversedSeesNoMore(g.heap, g.heap[g.gray[0]].body);
    }
  }

  lemma MarkingKeepsMarks(g: G)
    requires ListsOk(g) && g.gray != []
    requires g.gray[0] in g.heap && Traversable(g.heap[g.gray[0]].body)
    requires Marks(Mk(Pop(g)), Mk(Marking(g)))
    ensures KeepsMarks(g.heap, Marking(g).heap)
  {
    PopListsOk(g);
  }

  /** After its traversal an object satisfies its own clause of the invariant. */
  lemma TraversedObjTri(g: G, uv: bool, o: Id, b: Body)
    requires o in g.heap && Traversable(b) && AllMarked(g.heap, Children(b))
    requires g.heap[o].body == (if b.Table? then Traversed(b) else b)
    requires g.heap[o].color == if b.Thread? || IsWeak(b) then Gray else Black
    requires g.heap[o].color == Gray ==> o in Pending(g)
    ensures ObjTri(g, uv, o)
  {
    ChildrenMarked(g.heap, b);
  }

  lemma PropagateShape(g: G, uv: bool, except: set<Id>)
    requires Tri(g, uv, except) && g.gray != [] && NoDangling(g.heap)
    ensures g.gray[0] in g.heap && Traversable(g.heap[g.gray[0]].body)
    ensures SameShape(g.heap, PropagateMark(g).heap) && KeepsMarks(g.heap, PropagateMark(g).heap)
    ensures NoDangling(PropagateMark(g).heap)
  {
    MarkingKeepsTri(g, uv, except);
    PropagateStep(g);
    MarkingKeepsMarks(g);
    hide Tri, SlotsMarked, Marks, Marking, PropagateMark, Pop, Traversed, AllMarked;
    SameShapeNoDangling(g.heap, PropagateMark(g).heap);
  }

  /** `propagatemark` keeps the tri-colour invariant, and only empties table entries. */
  lemma PropagateKeepsTri(g: G, uv: bool, except: set<Id>)
    requires Tri(g, uv, except) && g.gray != [] && NoDangling(g.heap)
    ensures g.gray[0] in g.heap && Traversable(g.heap[g.gray[0]].body)
    ensures Tri(PropagateMark(g), uv, except)
    ensures SameShape(g.heap, PropagateMark(g).heap) && KeepsMarks(g.heap, PropagateMark(g).heap)
    ensures NoDangling(PropagateMark(g).heap)
  {
    hide ListsOk, ObjTri, NoDangling, SlotsMarked, Marks, SameShape, KeepsMarks, Children;
    var o := g.gray[0];
    PropagateShape(g, uv, except);
    MarkingKeepsTri(g, uv, except);
    var b := g.heap[o].body;
    PropagateStep(g);
    if b.Table? {
      RebodyKeepsTri(Marking(g), uv, except + {o}, o, Traversed(b));
    }
    TraversedObjTri(PropagateMark(g), uv, o, b);
  }
}
