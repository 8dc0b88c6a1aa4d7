/** Marking is exact: it marks nothing that a set closed under strong references leaves out. */
module GcBound {
  import opened GcState
  import opened GcMark
  import opened GcPropagate
  import opened GcAtomic
  import opened GcUpval

  ghost predicate Within(h: Heap, c: set<Id>) {
    forall o :: o in h && !h[o].color.White? ==> o in c
  }

  ghost predicate ClosedUnder(h: Heap, c: set<Id>) {
    forall x, y :: x in c && Edge(h, true, x, y) ==> y in c
  }

  ghost predicate ValuesIn(vs: seq<Value>, c: set<Id>) {
    forall v :: v in vs && v.Ref? ==> v.id in c
  }

  lemma ClosedSame(h: Heap, h': Heap, c: set<Id>)
    requires SameButColor(h, h') && ClosedUnder(h, c)
    ensures ClosedUnder(h', c)
  {
    forall x, y | x in c && Edge(h', true, x, y)
      ensures y in c
    {
      assert Edge(h, true, x, y);
    }
  }

  lemma {:induction false} ReallyMarkWithin(m: Marker, o: Id, c: set<Id>)
    requires o in m.heap && m.heap[o].color.White? && o in c && Within(m.heap, c) && ClosedUnder(m.heap, c)
    ensures Within(ReallyMark(m, o).heap, c)
    decreases Whites(m.heap), 0, 0
  {
    PaintShrinksWhites(m.heap, o, Gray);
    PaintShrinksWhites(m.heap, o, Black);
    match m.heap[o].body
    case Userdata(meta, env, _, _) =>
      var p := m.(heap := Paint(m.heap, o, Black));
      assert forall v :: v in [meta, env] && v.Ref? ==> Edge(m.heap, true, o, v.id);
      ClosedSame(m.heap, p.heap, c);
      MarkAllWithin(p, [meta, env], c);
    case Upval(loc) =>
      var p, v := m.(heap := Paint(m.heap, o, Gray)), UpvalValue(m.heap, loc);
      assert v.Ref? ==> Edge(m.heap, true, o, v.id);
      ClosedSame(m.heap, p.heap, c);
      MarkValueWithin(p, v, c);
    case _ =>
  }

  lemma {:induction false} MarkValueWithin(m: Marker, v: Value, c: set<Id>)
    requires (v.Ref? ==> v.id in c) && Within(m.heap, c) && ClosedUnder(m.heap, c)
    ensures Within(MarkValue(m, v).heap, c)
    decreases Whites(m.heap), 1, 0
  {
    if v.Ref? && v.id in m.heap && m.heap[v.id].color.White? { ReallyMarkWithin(m, v.id, c); }
  }

  lemma {:induction false} MarkAllWithin(m: Marker, vs: seq<Value>, c: set<Id>)
    requires ValuesIn(vs, c) && Within(m.heap, c) && ClosedUnder(m.heap, c)
    ensures Within(MarkAll(m, vs).heap, c)
    decreases Whites(m.heap), 2, |vs|
  {
    if vs != [] {
      MarkValueWithin(m, vs[0], c);
      MarkValueBodies(m, vs[0]);
      ClosedSame(m.heap, MarkValue(m, vs[0]).heap, c);
      MarkAllWithin(MarkValue(m, vs[0]), vs[1..], c);
    }
  }

  /** Same objects, of the same kinds, with the same strong references. */
  ghost predicate SameStrong(h: Heap, h': Heap) {
    && h'.Keys == h.Keys
    && (forall o :: o in h ==> SameLooks(h[o].body, h'[o].body))
    && (forall x, y :: Edge(h', true, x, y) <==> Edge(h, true, x, y))
  }

  /** Bodies that agree up to empty table entries and marks that the collector keeps in them. */
  ghost predicate SameLooks(b: Body, b': Body) {
    match b
    case Table(meta, mode, _, arr, nodes) =>
      b'.Table? && b'.meta == meta && b'.mode == mode && b'.arr == arr && |b'.nodes| == |nodes|
      && forall i :: 0 <= i < |nodes| ==> SameEntry(nodes[i], b'.nodes[i])
    case Userdata(meta, env, hasgc, _) => b'.Userdata? && b'.meta == meta && b'.env == env && b'.hasgc == hasgc
    case _ => b' == b
  }

  predicate SameEntry(n: Node, n': Node) {
    (n.val.Nil? <==> n'.val.Nil?) && (!n.val.Nil? ==> n' == n)
  }

  lemma LooksSee(h: Heap, b: Body, b': Body, x: Id)
    requires SameLooks(b, b')
    ensures Sees(h, b', x) <==> Sees(h, b, x)
    ensures SeesStrongly(h, b', x) <==> SeesStrongly(h, b, x)
  {
    if b.Table? {
      forall n | n in b.nodes && !n.val.Nil?
        ensures n in b'.nodes
      {
        var i :| 0 <= i < |b.nodes| && b.nodes[i] == n;
        assert SameEntry(b.nodes[i], b'.nodes[i]);
      }
      forall n | n in b'.nodes && !n.val.Nil?
        ensures n in b.nodes
      {
        var i :| 0 <= i < |b'.nodes| && b'.nodes[i] == n;
        assert SameEntry(b.nodes[i], b'.nodes[i]);
      }
    }
  }

  lemma LooksStrong(h: Heap, h': Heap)
    requires h'.Keys == h.Keys && forall o :: o in h ==> SameLooks(h[o].body, h'[o].body)
    ensures SameStrong(h, h')
  {
    forall loc
      ensures UpvalValue(h', loc) == UpvalValue(h, loc)
    {
      if loc.Open? && loc.th in h { assert SameLooks(h[loc.th].body, h'[loc.th].body); }
    }
    forall x, y
      ensures Edge(h', true, x, y) <==> Edge(h, true, x, y)
    {
      if x in h {
        LooksSee(h, h[x].body, h'[x].body, y);
        assert Sees(h', h'[x].body, y) <==> Sees(h, h'[x].body, y);
        assert SeesStrongly(h', h'[x].body, y) <==> SeesStrongly(h, h'[x].body, y);
      }
    }
  }

  lemma LooksTransitive(a: Body, b: Body, c: Body)
    requires SameLooks(a, b) && SameLooks(b, c)
    ensures SameLooks(a, c)
  {
    if a.Table? {
      forall i | 0 <= i < |a.nodes|
        ensures SameEntry(a.nodes[i], c.nodes[i])
      {
        assert SameEntry(a.nodes[i], b.nodes[i]) && SameEntry(b.nodes[i], c.nodes[i]);
      }
    }
  }

  lemma StrongTransitive(a: Heap, b: Heap, c: Heap)
    requires SameStrong(a, b) && SameStrong(b, c)
    ensures SameStrong(a, c)
  {
    hide SameLooks, Edge;
    forall o | o in a
      ensures SameLooks(a[o].body, c[o].body)
    {
      LooksTransitive(a[o].body, b[o].body, c[o].body);
    }
  }

  lemma StrongSame(h: Heap, h': Heap)
    requires SameButColor(h, h')
    ensures SameStrong(h, h')
  {
    LooksStrong(h, h');
  }

  lemma ClosedStrong(h: Heap, h': Heap, c: set<Id>)
    requires SameStrong(h, h') && ClosedUnder(h, c)
    ensures ClosedUnder(h', c)
  {
    hide Edge, SameLooks;
  }

  /** Within the bound, and with the strong references of the heap the cycle started with. */
  ghost predicate Bounded(h0: Heap, g: G, c: set<Id>) {
    SameStrong(h0, g.heap) && Within(g.heap, c)
  }

  lemma TraversedLooks(b: Body)
    requires b.Table?
    ensures SameLooks(b, Traversed(b))
  {
  }

  lemma PropagateBounded(h0: Heap, g: G, c: set<Id>, uv: bool, except: set<Id>)
    requires Tri(g, uv, except) && NoDangling(g.heap) && g.gray != [] && Bounded(h0, g, c) && ClosedUnder(h0, c)
    ensures HasGray(g) && Bounded(h0, PropagateMark(g), c)
  {
    hide ObjTri, NoDangling, SameStrong, SlotsMarked, Marks, SameShape, ClosedUnder, Children, SeesStrongly, Sees;
    PropagateKeepsTri(g, uv, except);
    var o := g.gray[0];
    assert o in Pending(g);
    var b, p := g.heap[o].body, Pop(g);
    var m := MarkAll(Mk(p), Children(b));
    StrongSame(g.heap, p.heap);
    StrongTransitive(h0, g.heap, p.heap);
    ClosedStrong(h0, p.heap, c);
    forall v | v in Children(b) && v.Ref?
      ensures v.id in c
    {
      ChildIn(g, o, v.id, p, c);
    }
    MarkAllWithin(Mk(p), Children(b), c);
    MarkAllBodies(Mk(p), Children(b));
    var r := PropagateMark(g);
    PropagateLooks(g, m);
    StrongTransitive(h0, g.heap, r.heap);
  }

  lemma ChildIn(g: G, o: Id, x: Id, p: G, c: set<Id>)
    requires HasGray(g) && o == g.gray[0] && p == Pop(g) && Ref(x) in Children(g.heap[o].body) && o in c
             && ClosedUnder(p.heap, c)
    ensures x in c
  {
    ChildrenAreStrong(p.heap, g.heap[o].body, x);
    assert Edge(p.heap, true, o, x);
  }

  lemma PropagateLooks(g: G, m: Marker)
    requires HasGray(g) && m == MarkAll(Mk(Pop(g)), Children(g.heap[g.gray[0]].body))
             && SameButColor(Pop(g).heap, m.heap)
    ensures SameStrong(g.heap, PropagateMark(g).heap)
    ensures forall x :: x in m.heap ==> PropagateMark(g).heap[x].color == m.heap[x].color
  {
    hide Children, SameStrong;
    var r, o := PropagateMark(g), g.gray[0];
    if g.heap[o].body.Table? { TraversedLooks(g.heap[o].body); }
    assert forall x :: x in g.heap && x != o ==> r.heap[x].body == g.heap[x].body;
    LooksStrong(g.heap, r.heap);
  }

  lemma {:induction false} PropagateAllBounded(h0: Heap, g: G, c: set<Id>, uv: bool, except: set<Id>)
    requires Tri(g, uv, except) && NoDangling(g.heap) && Bounded(h0, g, c) && ClosedUnder(h0, c)
    ensures Bounded(h0, PropagateAll(g), c)
    decreases Whites(g.heap), |g.gray|
  {
    hide Tri, NoDangling, Bounded, ClosedUnder, PropagateMark;
    if HasGray(g) {
      PropagateBounded(h0, g, c, uv, except);
      PropagateKeepsTri(g, uv, except);
      PropagateAllBounded(h0, PropagateMark(g), c, uv, except);
    }
  }

  lemma MarkAllBounded(h0: Heap, g: G, vs: seq<Value>, c: set<Id>)
    requires Bounded(h0, g, c) && ClosedUnder(h0, c) && ValuesIn(vs, c)
    ensures Bounded(h0, Put(g, MarkAll(Mk(g), vs)), c)
  {
    hide SameStrong, ClosedUnder;
    ClosedStrong(h0, g.heap, c);
    MarkAllWithin(Mk(g), vs, c);
    MarkAllBodies(Mk(g), vs);
    StrongSame(g.heap, MarkAll(Mk(g), vs).heap);
    StrongTransitive(h0, g.heap, MarkAll(Mk(g), vs).heap);
  }

  lemma {:induction false} RemarkBounded(h0: Heap, g: G, uvs: seq<Id>, c: set<Id>)
    requires Bounded(h0, g, c) && ClosedUnder(h0, c)
    ensures Bounded(h0, RemarkUpvals(g, uvs), c)
    decreases |uvs|
  {
    hide Bounded, ClosedUnder;
    if uvs != [] {
      if uvs[0] in g.heap && g.heap[uvs[0]].color == Gray && g.heap[uvs[0]].body.Upval? {
        var v := UpvalValue(g.heap, g.heap[uvs[0]].body.loc);
        UpvalIn(h0, g, uvs[0], c);
        assert MarkAll(Mk(g), [v]) == MarkValue(Mk(g), v);
        MarkAllBounded(h0, g, [v], c);
        RemarkBounded(h0, Put(g, MarkValue(Mk(g), v)), uvs[1..], c);
      } else {
        RemarkBounded(h0, g, uvs[1..], c);
      }
    }
  }

  lemma UpvalIn(h0: Heap, g: G, o: Id, c: set<Id>)
    requires Bounded(h0, g, c) && ClosedUnder(h0, c) && o in g.heap && g.heap[o].color == Gray && g.heap[o].body.Upval?
    ensures ValuesIn([UpvalValue(g.heap, g.heap[o].body.loc)], c)
  {
    hide SameStrong;
    ClosedStrong(h0, g.heap, c);
    var v := UpvalValue(g.heap, g.heap[o].body.loc);
    assert v.Ref? ==> Edge(g.heap, true, o, v.id);
  }
}
