/** Facts about interrupted loops: marking commutes with updates of the object being traversed. */
module GcLoops {
  import opened GcState
  import opened GcLists
  import opened GcMark
  import opened GcPropagate
  import opened GcClear
  import opened GcCycle
  import opened GcSweep

  /** Replacing a marked table (or a marked thread, its stack aside) is invisible to marking. */
  predicate Neutral(h: Heap, o: Id, x: Obj) {
    && o in h && !h[o].color.White? && !x.color.White?
    && ((h[o].body.Table? && x.body.Table?) || x.body == h[o].body)
  }

  function With(m: Marker, o: Id, x: Obj): Marker { m.(heap := m.heap[o := x]) }

  lemma WithUpvalValue(h: Heap, o: Id, x: Obj, loc: Loc)
    requires Neutral(h, o, x)
    ensures UpvalValue(h[o := x], loc) == UpvalValue(h, loc)
  {
  }

  lemma {:induction false} ReallyMarkWith(m: Marker, o: Id, x: Obj, y: Id)
    requires Neutral(m.heap, o, x) && y in m.heap && m.heap[y].color.White?
    ensures ReallyMark(With(m, o, x), y) == With(ReallyMark(m, y), o, x)
    ensures Neutral(ReallyMark(m, y).heap, o, x)
    decreases Whites(m.heap), 0, 0
  {
    hide Whites, MarkAll, MarkValue, UpvalValue, Paint;
    PaintShrinksWhites(m.heap, y, Gray);
    PaintShrinksWhites(m.heap, y, Black);
    InWhites(m.heap, y);
    PaintWith(m.heap, o, x, y, Gray);
    PaintWith(m.heap, o, x, y, Black);
    match m.heap[y].body
    case Userdata(meta, env, _, _) => MarkAllWith(m.(heap := Paint(m.heap, y, Black)), o, x, [meta, env]);
    case Upval(loc) =>
      WithUpvalValue(m.heap, o, x, loc);
      var p, v := m.(heap := Paint(m.heap, y, Gray)), UpvalValue(m.heap, loc);
      MarkValueWith(p, o, x, v);
      PaintWith(MarkValue(p, v).heap, o, x, y, Black);
    case _ =>
  }

  lemma InWhites(h: Heap, y: Id)
    requires y in h && h[y].color.White?
    ensures y in Whites(h)
  {
  }

  lemma PaintWith(h: Heap, o: Id, x: Obj, y: Id, c: Color)
    requires o in h && y in h && y != o
    ensures Paint(h[o := x], y, c) == Paint(h, y, c)[o := x]
    ensures Neutral(h, o, x) ==> Neutral(Paint(h, y, c), o, x)
    ensures Paint(h, y, c).Keys == h.Keys
  {
  }

  lemma {:induction false} MarkValueWith(m: Marker, o: Id, x: Obj, v: Value)
    requires Neutral(m.heap, o, x)
    ensures MarkValue(With(m, o, x), v) == With(MarkValue(m, v), o, x)
    ensures Neutral(MarkValue(m, v).heap, o, x)
    decreases Whites(m.heap), 1, 0
  {
    if v.Ref? && v.id in m.heap && m.heap[v.id].color.White? { ReallyMarkWith(m, o, x, v.id); }
  }

  lemma {:induction false} MarkAllWith(m: Marker, o: Id, x: Obj, vs: seq<Value>)
    requires Neutral(m.heap, o, x)
    ensures MarkAll(With(m, o, x), vs) == With(MarkAll(m, vs), o, x)
    ensures Neutral(MarkAll(m, vs).heap, o, x)
    decreases Whites(m.heap), 2, |vs|
  {
    if vs != [] {
      MarkValueWith(m, o, x, vs[0]);
      MarkAllWith(MarkValue(m, vs[0]), o, x, vs[1..]);
    }
  }

  lemma {:induction false} MarkAllConcat(m: Marker, s: seq<Value>, t: seq<Value>)
    ensures MarkAll(m, s + t) == MarkAll(MarkAll(m, s), t)
    decreases |s|
  {
    if s == [] {
      assert s + t == t;
    } else {
      assert (s + t)[1..] == s[1..] + t;
      MarkAllConcat(MarkValue(m, s[0]), s[1..], t);
    }
  }

  lemma MarkOne(m: Marker, v: Value)
    ensures MarkAll(m, [v]) == MarkValue(m, v)
  {
    assert [v][1..] == [];
  }

  lemma MarkTwo(m: Marker, v: Value, w: Value)
    ensures MarkAll(m, [v, w]) == MarkValue(MarkValue(m, v), w)
  {
    assert [v, w][1..] == [w];
    MarkOne(MarkValue(m, v), w);
  }

  /** Marking from a place other than the table's own object leaves that object alone. */
  lemma MarkLeaves(m: Marker, t: Id, v: Value)
    requires t in m.heap && !m.heap[t].color.White?
    ensures var r := MarkValue(m, v); t in r.heap && r.heap[t] == m.heap[t]
  {
    MarkValueWith(m, t, m.heap[t], v);
    assert With(m, t, m.heap[t]) == m by { assert m.heap[t := m.heap[t]] == m.heap; }
  }

  lemma BackwardsStep(m: Marker, arr: seq<Value>, i: nat)
    requires i < |arr|
    ensures MarkAll(m, Backwards(arr[..i + 1])) == MarkAll(MarkValue(m, arr[i]), Backwards(arr[..i]))
    ensures arr[..|arr|] == arr && MarkAll(m, Backwards(arr[..0])) == m
  {
    assert arr[..i + 1][..i] == arr[..i];
    assert Backwards(arr[..i + 1]) == [arr[i]] + Backwards(arr[..i]);
    MarkAllConcat(m, [arr[i]], Backwards(arr[..i]));
    MarkOne(m, arr[i]);
  }

  // The loop of `traversetable` over the nodes

  /** One turn: an empty entry marks nothing. */
  function MarkNode(m: Marker, n: Node, mode: Mode): Marker {
    if n.val.Nil? then m
    else
      var k := if mode.keys then m else MarkValue(m, n.key);
      if mode.values then k else MarkValue(k, n.val)
  }

  lemma MarkNodeStep(m: Marker, nodes: seq<Node>, mode: Mode, i: nat)
    requires i < |nodes|
    ensures MarkAll(m, NodeMarks(nodes[..i + 1], mode)) ==
              MarkAll(MarkNode(m, nodes[i], mode), NodeMarks(nodes[..i], mode))
  {
    var n, l := nodes[i], nodes[..i + 1];
    assert l[..i] == nodes[..i];
    var ks, vs: seq<Value> := if mode.keys then [] else [n.key], if mode.values then [] else [n.val];
    if n.val.Nil? {
      assert NodeMarks(l, mode) == NodeMarks(nodes[..i], mode);
    } else {
      assert |l| - 1 == i && NodeMarks(l, mode) == (ks + vs) + NodeMarks(nodes[..i], mode);
      MarkAllConcat(m, ks + vs, NodeMarks(nodes[..i], mode));
      MarkAllConcat(m, ks, vs);
      MarkOne(m, n.key);
      var k := if mode.keys then m else MarkValue(m, n.key);
      MarkOne(k, n.val);
      assert MarkAll(m, ks) == k;
      assert MarkAll(k, vs) == MarkNode(m, n, mode);
    }
  }

  lemma MarkNodeWith(m: Marker, o: Id, x: Obj, n: Node, mode: Mode)
    requires Neutral(m.heap, o, x)
    ensures MarkNode(With(m, o, x), n, mode) == With(MarkNode(m, n, mode), o, x)
    ensures Neutral(MarkNode(m, n, mode).heap, o, x) && MarkNode(m, n, mode).heap[o] == m.heap[o]
  {
    MarkLeaves(m, o, n.key);
    MarkLeaves(m, o, n.val);
    MarkLeaves(MarkValue(m, n.key), o, n.val);
    MarkValueWith(m, o, x, n.key);
    MarkValueWith(m, o, x, n.val);
    MarkValueWith(MarkValue(m, n.key), o, x, n.val);
  }

  /** The nodes when those from `i` on have been visited. */
  function Visited(nodes: seq<Node>, i: nat): seq<Node>
    requires i <= |nodes|
  {
    nodes[..i] + RemoveEmpty(nodes)[i..]
  }

  lemma VisitedStep(nodes: seq<Node>, i: nat)
    requires i < |nodes|
    ensures |Visited(nodes, i + 1)| == |nodes|
    ensures Visited(nodes, i) == if nodes[i].val.Nil? then Visited(nodes, i + 1)[i := RemoveEntry(nodes[i])]
                                 else Visited(nodes, i + 1)
    ensures Visited(nodes, 0) == RemoveEmpty(nodes) && Visited(nodes, |nodes|) == nodes
  {
  }

  /** The loops of `traversetable` in terms of what it marks. */
  lemma TableMarks(m: Marker, b: Body)
    requires b.Table?
    ensures var n := MarkValue(m, b.meta);
            MarkAll(m, Children(b)) ==
              if b.mode.keys && b.mode.values then n
              else MarkAll(if b.mode.values then n else MarkAll(n, Backwards(b.arr)), NodeMarks(b.nodes, b.mode))
  {
    var n := MarkValue(m, b.meta);
    if b.mode.keys && b.mode.values {
      assert Children(b) == [b.meta];
      assert [b.meta][1..] == [];
    } else {
      var a: seq<Value> := if b.mode.values then [] else Backwards(b.arr);
      assert Children(b) == [b.meta] + (a + NodeMarks(b.nodes, b.mode));
      MarkAllConcat(m, [b.meta], a + NodeMarks(b.nodes, b.mode));
      assert [b.meta][1..] == [];
      MarkAllConcat(n, a, NodeMarks(b.nodes, b.mode));
    }
  }

  /** A weak table is black while it is traversed, and gray again afterwards. */
  lemma WeakTraversal(h: Heap, gray: seq<Id>, o: Id, c: Color)
    requires o in h && h[o].body.Table? && !c.White?
    ensures var vs := Children(h[o].body);
            var b, r := MarkAll(Marker(Paint(h, o, Black), gray), vs), MarkAll(Marker(Paint(h, o, c), gray), vs);
            && r.gray == b.gray && o in b.heap && o in r.heap
            && Rebody(r.heap, o, Traversed(h[o].body)) == Paint(Rebody(b.heap, o, Traversed(h[o].body)), o, c)
  {
    hide MarkAll, Children, Traversed;
    var vs := Children(h[o].body);
    var m := Marker(Paint(h, o, Black), gray);
    var x := h[o].(color := c);
    MarkAllWith(m, o, x, vs);
    MarkAllLeaves(m, o, vs);
    assert With(m, o, x) == Marker(Paint(h, o, c), gray) by { assert Paint(h, o, Black)[o := x] == Paint(h, o, c); }
  }

  lemma {:induction false} MarkAllLeaves(m: Marker, t: Id, vs: seq<Value>)
    requires t in m.heap && !m.heap[t].color.White?
    ensures var r := MarkAll(m, vs); t in r.heap && r.heap[t] == m.heap[t]
    decreases |vs|
  {
    if vs != [] {
      MarkLeaves(m, t, vs[0]);
      MarkAllLeaves(MarkValue(m, vs[0]), t, vs[1..]);
    }
  }

  // The loop of `luaC_separateudata`

  lemma {:induction false} PickAppend(h: Heap, l: seq<Id>, x: Id, pending: bool)
    ensures Pick(h, l + [x], pending) == Pick(h, l, pending) + (if NeedsFinalizer(h, x) == pending then [x] else [])
  {
    hide NeedsFinalizer, Pick;
    PickStep(h, l + [x], pending);
    PickStep(h, l, pending);
    if l == [] {
      assert (l + [x])[1..] == l;
    } else {
      assert (l + [x])[1..] == l[1..] + [x];
      PickAppend(h, l[1..], x, pending);
    }
  }

  lemma PickStep(h: Heap, l: seq<Id>, pending: bool)
    ensures Pick(h, l, pending) ==
            if l == [] then []
            else (if NeedsFinalizer(h, l[0]) == pending then [l[0]] else []) + Pick(h, l[1..], pending)
  {
  }

  lemma SetFinalizedAppend(h: Heap, l: seq<Id>, x: Id)
    requires x !in l && x in h
    ensures var r := SetFinalized(h, l);
            && r[x] == h[x]
            && SetFinalized(h, l + [x]) ==
                 if Separable(h, x) then r[x := h[x].(body := h[x].body.(finalized := true))] else r
  {
  }

  // The loop of `cleartable`

  /** `stringmark`. */
  function Touch(h: Heap, v: Value): Heap {
    if IsString(h, v) && h[v.id].color.White? then Paint(h, v.id, Gray) else h
  }

  /** The heap within the loop of `cleartable`: `seen` was tested, and the table's body is partly cleared. */
  function Partly(h: Heap, seen: seq<Value>, t: Id, b: Body): Heap
    requires t in h
  {
    Rebody(MarkStrings(h, seen), t, b)
  }

  lemma PartlyTest(h: Heap, seen: seq<Value>, t: Id, b: Body, v: Value, isKey: bool)
    requires t in h && h[t].body.Table? && b.Table?
    ensures IsCleared(Partly(h, seen, t, b), v, isKey) == IsCleared(h, v, isKey)
    ensures Touch(Partly(h, seen, t, b), v) == Partly(h, seen + [v], t, b)
  {
    hide MarkStrings, IsCleared, Touch, Partly;
    MarkStringsAppend(h, seen, v);
    PartlyTouch(MarkStrings(h, seen), t, b, v);
    PartlyCleared(h, seen, t, b, v, isKey);
    PartlyIs(h, seen, t, b);
    PartlyIs(h, seen + [v], t, b);
  }

  lemma PartlyIs(h: Heap, seen: seq<Value>, t: Id, b: Body)
    requires t in h
    ensures Partly(h, seen, t, b) == Rebody(MarkStrings(h, seen), t, b)
  {
  }

  lemma PartlyCleared(h: Heap, seen: seq<Value>, t: Id, b: Body, v: Value, isKey: bool)
    requires t in h && h[t].body.Table? && b.Table?
    ensures IsCleared(Partly(h, seen, t, b), v, isKey) == IsCleared(h, v, isKey)
  {
    hide MarkStrings;
  }

  lemma PartlyTouch(h: Heap, t: Id, b: Body, v: Value)
    requires t in h && h[t].body.Table? && b.Table?
    ensures Touch(Rebody(h, t, b), v) == Rebody(Touch(h, v), t, b)
  {
  }

  lemma MarkStringsAppend(h: Heap, vs: seq<Value>, v: Value)
    ensures MarkStrings(h, vs + [v]) == Touch(MarkStrings(h, vs), v)
  {
    hide MarkStrings;
    var a, b := MarkStrings(h, vs + [v]), Touch(MarkStrings(h, vs), v);
    forall o | o in h
      ensures o in a && o in b && a[o] == b[o]
    {
      assert Ref(o) in vs + [v] <==> Ref(o) in vs || v == Ref(o);
    }
  }

  function HalfCleared(h: Heap, arr: seq<Value>, i: nat): seq<Value>
    requires i <= |arr|
  {
    arr[..i] + ClearValues(h, arr)[i..]
  }

  lemma HalfClearedStep(h: Heap, arr: seq<Value>, i: nat)
    requires i < |arr|
    ensures |HalfCleared(h, arr, i + 1)| == |arr| && HalfCleared(h, arr, i + 1)[i] == arr[i]
    ensures HalfCleared(h, arr, i) ==
              if IsCleared(h, arr[i], false) then HalfCleared(h, arr, i + 1)[i := Nil] else HalfCleared(h, arr, i + 1)
    ensures Backwards(arr[..i + 1]) == [arr[i]] + Backwards(arr[..i])
  {
    assert arr[..i + 1][..i] == arr[..i];
  }

  lemma HalfClearedEnds(h: Heap, arr: seq<Value>)
    ensures HalfCleared(h, arr, |arr|) == arr && HalfCleared(h, arr, 0) == ClearValues(h, arr)
    ensures Backwards(arr[..0]) == [] && arr[..|arr|] == arr
  {
  }

  function HalfNodes(h: Heap, ns: seq<Node>, i: nat): seq<Node>
    requires i <= |ns|
  {
    ns[..i] + ClearNodes(h, ns)[i..]
  }

  /** What testing one node looks at. */
  function TestedInNode(h: Heap, n: Node): seq<Value> {
    if n.val.Nil? then [] else if IsCleared(h, n.key, true) then [n.key] else [n.key, n.val]
  }

  lemma HalfNodesStep(h: Heap, ns: seq<Node>, i: nat)
    requires i < |ns|
    ensures |HalfNodes(h, ns, i + 1)| == |ns| && HalfNodes(h, ns, i + 1)[i] == ns[i]
    ensures HalfNodes(h, ns, i) == if ClearNode(h, ns[i]) == ns[i] then HalfNodes(h, ns, i + 1)
                                   else HalfNodes(h, ns, i + 1)[i := ClearNode(h, ns[i])]
    ensures TestedInNodes(h, ns[..i + 1]) == TestedInNode(h, ns[i]) + TestedInNodes(h, ns[..i])
  {
    assert ns[..i + 1][..i] == ns[..i];
  }

  lemma HalfNodesEnds(h: Heap, ns: seq<Node>)
    ensures HalfNodes(h, ns, |ns|) == ns && HalfNodes(h, ns, 0) == ClearNodes(h, ns)
    ensures TestedInNodes(h, ns[..0]) == [] && ns[..|ns|] == ns
  {
  }

  // `sweepwholelist`

  lemma SweptHeapAppend(g: G, l: seq<Id>, x: Id)
    requires x !in l && x in g.heap
    ensures x in SweptHeap(g, l) && SweptHeap(g, l)[x] == g.heap[x]
    ensures SweptHeap(g, l + [x]) ==
              if Dies(g, x) then SweptHeap(g, l) - {x} else Paint(SweptHeap(g, l), x, White(g.white))
  {
  }

  lemma {:induction false} SurvivorsAppend(g: G, l: seq<Id>, x: Id)
    ensures Survivors(g, l + [x]) == Survivors(g, l) + (if Dies(g, x) then [] else [x])
  {
    if l == [] {
      assert [] + [x] == [x] && [x][1..] == [];
    } else {
      assert (l + [x])[1..] == l[1..] + [x];
      SurvivorsAppend(g, l[1..], x);
    }
  }

  lemma {:induction false} KeepOpenAppend(g: G, l: seq<Id>, x: Id, uvs: seq<Id>)
    ensures KeepOpen(g, l + [x], uvs) == if Dies(g, x) then Without(KeepOpen(g, l, uvs), x) else KeepOpen(g, l, uvs)
  {
    hide Dies, Without;
    if uvs == [] {
      assert KeepOpen(g, l, uvs) == [];
      WithoutNothing([], x);
    } else {
      var y := uvs[0];
      assert y in l + [x] <==> y in l || y == x;
      KeepOpenAppend(g, l, x, uvs[1..]);
      WithoutCons(y, KeepOpen(g, l, uvs[1..]), x);
      assert [] + KeepOpen(g, l, uvs[1..]) == KeepOpen(g, l, uvs[1..]);
    }
  }

  lemma WithoutCons(y: Id, l: seq<Id>, x: Id)
    ensures Without([y] + l, x) == (if y == x then [] else [y]) + Without(l, x)
  {
    assert ([y] + l)[1..] == l;
  }

  lemma {:induction false} WithoutNothing(l: seq<Id>, x: Id)
    requires x !in l
    ensures Without(l, x) == l
  {
    if l != [] { WithoutNothing(l[1..], x); }
  }

  lemma {:induction false} KeepAllOpen(g: G, uvs: seq<Id>)
    ensures KeepOpen(g, [], uvs) == uvs
  {
    if uvs != [] { KeepAllOpen(g, uvs[1..]); }
  }

  lemma {:induction false} KeepOpenSame(g: G, l: seq<Id>, uvs: seq<Id>)
    requires forall x :: x in l ==> x !in uvs
    ensures KeepOpen(g, l, uvs) == uvs
  {
    if uvs != [] { KeepOpenSame(g, l, uvs[1..]); }
  }
}
