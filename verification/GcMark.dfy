/** Marking: `reallymarkobject` and what a run of it does to colours and to the gray list. */
module GcMark {
  import opened GcState
  import opened GcLists

  /** The part of the state that marking changes. */
  datatype Marker = Marker(heap: Heap, gray: seq<Id>)

  lemma PaintShrinksWhites(h: Heap, o: Id, c: Color)
    requires o in h && !c.White?
    ensures Whites(Paint(h, o, c)) == Whites(h) - {o}
  {
  }

  /** `markvalue` and `markobject`: mark only what is white. */
  function MarkValue(m: Marker, v: Value): (r: Marker)
    ensures r.heap.Keys == m.heap.Keys && Whites(r.heap) <= Whites(m.heap)
    ensures Whites(r.heap) == Whites(m.heap) ==> r.gray == m.gray
    decreases Whites(m.heap), 1, 0
  {
    if v.Ref? && v.id in m.heap && m.heap[v.id].color.White? then ReallyMark(m, v.id) else m
  }

  function ReallyMark(m: Marker, o: Id): (r: Marker)
    requires o in m.heap && m.heap[o].color.White?
    ensures r.heap.Keys == m.heap.Keys && Whites(r.heap) < Whites(m.heap)
    decreases Whites(m.heap), 0, 0
  {
    PaintShrinksWhites(m.heap, o, Gray);
    PaintShrinksWhites(m.heap, o, Black);
    match m.heap[o].body
    case String(_) => m.(heap := Paint(m.heap, o, Gray))
    case Userdata(meta, env, _, _) => MarkAll(m.(heap := Paint(m.heap, o, Black)), [meta, env])
    case Upval(loc) =>
      var r := MarkValue(m.(heap := Paint(m.heap, o, Gray)), UpvalValue(m.heap, loc));
      PaintShrinksWhites(r.heap, o, Black);
      if loc.Closed? then r.(heap := Paint(r.heap, o, Black)) else r
    case _ => Marker(Paint(m.heap, o, Gray), [o] + m.gray)
  }

  function MarkAll(m: Marker, vs: seq<Value>): (r: Marker)
    ensures r.heap.Keys == m.heap.Keys && Whites(r.heap) <= Whites(m.heap)
    ensures Whites(r.heap) == Whites(m.heap) ==> r.gray == m.gray
    decreases Whites(m.heap), 2, |vs|
  {
    if vs == [] then m else MarkAll(MarkValue(m, vs[0]), vs[1..])
  }

  /** The object is not white, or the value is no object. */
  predicate Marked(h: Heap, v: Value) {
    v.Ref? ==> v.id in h && !h[v.id].color.White?
  }

  ghost predicate AllMarked(h: Heap, vs: seq<Value>) {
    forall v :: v in vs ==> Marked(h, v)
  }

  /** Everything the object holds is marked, the keys of its empty entries included. */
  ghost predicate SlotsMarked(h: Heap, b: Body) {
    match b
    case String(_) => true
    case Userdata(meta, env, _, _) => Marked(h, meta) && Marked(h, env)
    case Upval(loc) => Marked(h, UpvalValue(h, loc))
    case Closure(env, slots) => Marked(h, env) && AllMarked(h, slots)
    case Proto(slots) => AllMarked(h, slots)
    case Table(meta, _, _, arr, nodes) =>
      Marked(h, meta) && AllMarked(h, arr) && forall n :: n in nodes ==> Marked(h, n.key) && Marked(h, n.val)
    case Thread(gt, stack, _) => Marked(h, gt) && AllMarked(h, stack)
  }

  /** What marking does at once to a white object of each kind. */
  ghost predicate JustMarked(h: Heap, added: seq<Id>, o: Id)
    requires o in h
  {
    match h[o].body
    case String(_) => h[o].color == Gray
    case Userdata(_, _, _, _) => h[o].color == Black && SlotsMarked(h, h[o].body)
    case Upval(loc) => h[o].color == (if loc.Closed? then Black else Gray) && SlotsMarked(h, h[o].body)
    case _ => h[o].color == Gray && o in added
  }

  ghost predicate SameButColor(h: Heap, h': Heap) {
    && h'.Keys == h.Keys
    && forall o :: o in h ==> h'[o].body == h[o].body && h'[o].fixed == h[o].fixed
  }

  /** Colours change only from white, and never to white. */
  ghost predicate OnlyMarks(h: Heap, h': Heap) {
    && SameButColor(h, h')
    && forall o :: o in h ==> h'[o].color == h[o].color || (h[o].color.White? && !h'[o].color.White?)
  }

  /** Objects put in the gray list: white before, gray now, waiting for traversal. */
  ghost predicate Queued(h: Heap, h': Heap, added: seq<Id>) {
    && NoDup(added)
    && forall o :: o in added ==> o in h && o in h' && h[o].color.White? && h'[o].color == Gray
                                  && Traversable(h[o].body)
  }

  function Added(m: Marker, m': Marker): seq<Id> {
    if |m.gray| <= |m'.gray| then m'.gray[..|m'.gray| - |m.gray|] else []
  }

  /**
    `m'` comes from `m` by marking: only colours change, only from white, and the gray list
    grows at its front by exactly the newly marked objects that wait for traversal.
   */
  ghost predicate Marks(m: Marker, m': Marker) {
    && OnlyMarks(m.heap, m'.heap)
    && m'.gray == Added(m, m') + m.gray
    && Queued(m.heap, m'.heap, Added(m, m'))
    && forall o :: o in m.heap && m'.heap[o].color != m.heap[o].color ==> JustMarked(m'.heap, Added(m, m'), o)
  }

  lemma UpvalValueSame(h: Heap, h': Heap, loc: Loc)
    requires SameButColor(h, h')
    ensures UpvalValue(h, loc) == UpvalValue(h', loc)
  {
  }

  ghost predicate KeepsMarks(h: Heap, h': Heap) {
    forall o :: o in h && !h[o].color.White? ==> o in h' && !h'[o].color.White?
  }

  /** What was marked stays marked, as long as upvalues keep their values. */
  lemma SlotsStayMarked(h: Heap, h': Heap, b: Body)
    requires KeepsMarks(h, h') && SlotsMarked(h, b)
    requires b.Upval? ==> UpvalValue(h, b.loc) == UpvalValue(h', b.loc)
    ensures SlotsMarked(h', b)
  {
  }

  /** No reference leads out of the heap. */
  ghost predicate NoDangling(h: Heap) {
    forall o, x :: Refers(h, o, x) ==> x in h
  }

  lemma NoDanglingSame(h: Heap, h': Heap)
    requires SameButColor(h, h') && NoDangling(h)
    ensures NoDangling(h')
  {
    forall o, x | Refers(h', o, x)
      ensures x in h'
    {
      assert Refers(h, o, x);
    }
  }

  lemma AddedConcat(a: Marker, b: Marker, c: Marker)
    requires b.gray == Added(a, b) + a.gray && c.gray == Added(b, c) + b.gray
    ensures Added(a, c) == Added(b, c) + Added(a, b)
    ensures c.gray == Added(a, c) + a.gray
  {
    assert c.gray == (Added(b, c) + Added(a, b)) + a.gray;
  }

  lemma JustMarkedStays(b: Heap, c: Heap, added: seq<Id>, more: seq<Id>, o: Id)
    requires OnlyMarks(b, c) && o in b && !b[o].color.White? && JustMarked(b, added, o)
    ensures JustMarked(c, more + added, o)
  {
    if SlotsMarked(b, b[o].body) && (b[o].body.Userdata? || b[o].body.Upval?) {
      assert KeepsMarks(b, c);
      if b[o].body.Upval? { UpvalValueSame(b, c, b[o].body.loc); }
      SlotsStayMarked(b, c, b[o].body);
    }
  }

  lemma JustMarkedGrows(h: Heap, added: seq<Id>, more: seq<Id>, o: Id)
    requires o in h && JustMarked(h, added, o)
    ensures JustMarked(h, added + more, o)
  {
  }

  lemma MarksTransitive(a: Marker, b: Marker, c: Marker)
    requires Marks(a, b) && Marks(b, c)
    ensures Marks(a, c)
  {
    AddedConcat(a, b, c);
    ConcatNoDup(Added(b, c), Added(a, b));
    forall o | o in a.heap && c.heap[o].color != a.heap[o].color
      ensures JustMarked(c.heap, Added(a, c), o)
    {
      if b.heap[o].color != a.heap[o].color {
        JustMarkedStays(b.heap, c.heap, Added(a, b), Added(b, c), o);
      } else {
        JustMarkedGrows(c.heap, Added(b, c), Added(a, b), o);
      }
    }
  }

  lemma {:induction false} MarkValueMarks(m: Marker, v: Value)
    requires NoDangling(m.heap) && (v.Ref? ==> v.id in m.heap)
    ensures Marks(m, MarkValue(m, v)) && Marked(MarkValue(m, v).heap, v)
    decreases Whites(m.heap), 1, 0
  {
    if v.Ref? && m.heap[v.id].color.White? {
      ReallyMarkMarks(m, v.id);
    }
  }

  /** Marking started from a repainted object is marking of the object itself. */
  lemma MarksThroughPaint(m: Marker, o: Id, c: Color, n: Marker)
    requires o in m.heap && m.heap[o].color.White? && !c.White?
    requires Marks(m.(heap := Paint(m.heap, o, c)), n)
    requires JustMarked(n.heap, Added(m, n), o)
    ensures Marks(m, n)
  {
  }

  lemma {:induction false} MarkUserdata(m: Marker, o: Id)
    requires NoDangling(m.heap)
    requires o in m.heap && m.heap[o].color.White? && m.heap[o].body.Userdata?
    ensures Marks(m, ReallyMark(m, o)) && Marked(ReallyMark(m, o).heap, Ref(o))
    decreases Whites(m.heap), 0, 0
  {
    var b := m.heap[o].body;
    var p := m.(heap := Paint(m.heap, o, Black));
    PaintShrinksWhites(m.heap, o, Black);
    NoDanglingSame(m.heap, p.heap);
    var vs := [b.meta, b.env];
    assert forall v :: v in vs && v.Ref? ==> Refers(m.heap, o, v.id);
    MarkAllMarks(p, vs);
    assert b.meta in vs && b.env in vs;
    MarksThroughPaint(m, o, Black, MarkAll(p, vs));
  }

  lemma {:induction false} MarkUpval(m: Marker, o: Id)
    requires NoDangling(m.heap)
    requires o in m.heap && m.heap[o].color.White? && m.heap[o].body.Upval?
    ensures Marks(m, ReallyMark(m, o)) && Marked(ReallyMark(m, o).heap, Ref(o))
    decreases Whites(m.heap), 0, 0
  {
    var loc := m.heap[o].body.loc;
    var v := UpvalValue(m.heap, loc);
    var p := m.(heap := Paint(m.heap, o, Gray));
    PaintShrinksWhites(m.heap, o, Gray);
    NoDanglingSame(m.heap, p.heap);
    assert v.Ref? ==> Refers(m.heap, o, v.id);
    MarkValueMarks(p, v);
    var r := MarkValue(p, v);
    UpvalValueSame(m.heap, r.heap, loc);
    if loc.Closed? {
      MarksBlacken(m, o, r);
    } else {
      MarksThroughPaint(m, o, Gray, r);
    }
  }

  lemma ClosedSlots(h: Heap, b: Body)
    requires b.Upval? && b.loc.Closed? && Marked(h, b.loc.v)
    ensures SlotsMarked(h, b)
  {
  }

  /** `gray2black` on a closed upvalue whose value has been marked. */
  lemma MarksBlacken(m: Marker, o: Id, r: Marker)
    requires o in m.heap && m.heap[o].color.White? && m.heap[o].body.Upval? && m.heap[o].body.loc.Closed?
    requires Marks(m.(heap := Paint(m.heap, o, Gray)), r)
    requires Marked(r.heap, m.heap[o].body.loc.v)
    ensures Marks(m, r.(heap := Paint(r.heap, o, Black)))
  {
    hide SlotsMarked, UpvalValue, JustMarked, OnlyMarks, Queued, Paint;
    BlackenOnly(m.heap, r.heap, o, Added(m, r));
    var s := r.(heap := Paint(r.heap, o, Black));
    forall x | x in m.heap && s.heap[x].color != m.heap[x].color
      ensures JustMarked(s.heap, Added(m, s), x)
    {
      BlackenWas(m.heap, r.heap, o, x);
      assert x in Paint(m.heap, o, Gray);
      BlackenedStays(r.heap, o, Added(m, r), x);
    }
  }

  lemma BlackenOnly(h: Heap, r: Heap, o: Id, added: seq<Id>)
    requires o in h && h[o].color.White? && OnlyMarks(Paint(h, o, Gray), r) && Queued(Paint(h, o, Gray), r, added)
    ensures o in r && r[o].body == h[o].body && OnlyMarks(h, Paint(r, o, Black)) && Queued(h, Paint(r, o, Black), added)
    ensures Paint(r, o, Black).Keys == Paint(h, o, Gray).Keys == h.Keys == r.Keys
  {
    assert o !in added;
  }

  lemma BlackenWas(h: Heap, r: Heap, o: Id, x: Id)
    requires o in h && o in r && x in h && x in r
    requires Paint(r, o, Black)[x].color != h[x].color
    ensures x != o ==> Paint(h, o, Gray)[x].color == h[x].color && r[x].color != h[x].color
  {
  }

  lemma BlackenedStays(h: Heap, o: Id, added: seq<Id>, x: Id)
    requires o in h && h[o].body.Upval? && h[o].body.loc.Closed? && Marked(h, h[o].body.loc.v)
    requires x in h && (x != o ==> JustMarked(h, added, x))
    ensures JustMarked(Paint(h, o, Black), added, x)
  {
    var s := Paint(h, o, Black);
    var b := h[x].body;
    if b.Userdata? || b.Upval? {
      if b.Upval? { UpvalValueSame(h, s, b.loc); }
      if x == o { ClosedSlots(s, b); } else { SlotsStayMarked(h, s, b); }
    }
  }

  /** `reallymarkobject` is a marking step that marks its argument. */
  lemma {:induction false} ReallyMarkMarks(m: Marker, o: Id)
    requires NoDangling(m.heap)
    requires o in m.heap && m.heap[o].color.White?
    ensures Marks(m, ReallyMark(m, o)) && Marked(ReallyMark(m, o).heap, Ref(o))
    decreases Whites(m.heap), 0, 1
  {
    match m.heap[o].body
    case Userdata(_, _, _, _) => MarkUserdata(m, o);
    case Upval(_) => MarkUpval(m, o);
    case _ =>
      var r := ReallyMark(m, o);
      assert Added(m, r) == if m.heap[o].body.String? then [] else [o];
  }

  lemma {:induction false} MarkAllMarks(m: Marker, vs: seq<Value>)
    requires NoDangling(m.heap) && forall v :: v in vs && v.Ref? ==> v.id in m.heap
    ensures Marks(m, MarkAll(m, vs)) && AllMarked(MarkAll(m, vs).heap, vs)
    decreases Whites(m.heap), 2, |vs|
  {
    if vs == [] {
      assert Added(m, m) == [];
    } else {
      var n := MarkValue(m, vs[0]);
      MarkValueMarks(m, vs[0]);
      NoDanglingSame(m.heap, n.heap);
      MarkAllMarks(n, vs[1..]);
      MarksTransitive(m, n, MarkAll(n, vs[1..]));
    }
  }
}
