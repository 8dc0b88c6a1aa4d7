/** `cleartable`: weak entries whose object was not marked are removed. */
module GcClear {
  import opened GcState
  import opened GcLists
  import opened GcMark
  import opened GcPropagate
  import opened GcAtomic

  /** `iscleared` for objects that are not strings; strings are values and never cleared. */
  predicate IsCleared(h: Heap, v: Value, isKey: bool) {
    && v.Ref? && v.id in h && !h[v.id].body.String?
    && (h[v.id].color.White? || (h[v.id].body.Userdata? && !isKey && h[v.id].body.finalized))
  }

  function ClearValue(h: Heap, v: Value): Value {
    if IsCleared(h, v, false) then Nil else v
  }

  function ClearNode(h: Heap, n: Node): Node {
    if !n.val.Nil? && (IsCleared(h, n.key, true) || IsCleared(h, n.val, false)) then RemoveEntry(n) else n
  }

  function ClearValues(h: Heap, vs: seq<Value>): (r: seq<Value>)
    ensures |r| == |vs| && forall i :: 0 <= i < |r| ==> r[i] == ClearValue(h, vs[i])
  {
    seq(|vs|, i requires 0 <= i < |vs| => ClearValue(h, vs[i]))
  }

  function ClearNodes(h: Heap, ns: seq<Node>): (r: seq<Node>)
    ensures |r| == |ns| && forall i :: 0 <= i < |r| ==> r[i] == ClearNode(h, ns[i])
  {
    seq(|ns|, i requires 0 <= i < |ns| => ClearNode(h, ns[i]))
  }

  function ClearedBody(h: Heap, b: Body): Body
    requires b.Table?
  {
    b.(arr := if b.bits.values then ClearValues(h, b.arr) else b.arr, nodes := ClearNodes(h, b.nodes))
  }

  /** The values that `iscleared` looks at in the nodes; a value is not tested once its key is cleared. */
  function TestedInNodes(h: Heap, nodes: seq<Node>): seq<Value> {
    if nodes == [] then []
    else
      var n := nodes[|nodes| - 1];
      (if n.val.Nil? then [] else if IsCleared(h, n.key, true) then [n.key] else [n.key, n.val])
      + TestedInNodes(h, nodes[..|nodes| - 1])
  }

  function Tested(h: Heap, b: Body): seq<Value>
    requires b.Table?
  {
    (if b.bits.values then Backwards(b.arr) else []) + TestedInNodes(h, b.nodes)
  }

  predicate IsString(h: Heap, v: Value) {
    v.Ref? && v.id in h && h[v.id].body.String?
  }

  /** `stringmark` on every string among the tested values. */
  function MarkStrings(h: Heap, vs: seq<Value>): (r: Heap)
    ensures SameButColor(h, r)
    ensures forall o :: o in h ==>
                          r[o].color == if h[o].body.String? && h[o].color.White? && Ref(o) in vs then Gray
                                        else h[o].color
    decreases |vs|
  {
    if vs == [] then h
    else
      var h1 := if IsString(h, vs[0]) && h[vs[0].id].color.White? then Paint(h, vs[0].id, Gray) else h;
      MarkStrings(h1, vs[1..])
  }

  function ClearTable(g: G, t: Id): G
    requires t in g.heap && g.heap[t].body.Table?
  {
    g.(heap := Rebody(MarkStrings(g.heap, Tested(g.heap, g.heap[t].body)), t, ClearedBody(g.heap, g.heap[t].body)))
  }

  function ClearTables(g: G, l: seq<Id>): (r: G)
    ensures r.heap.Keys == g.heap.Keys
    decreases |l|
  {
    if l == [] then g
    else if l[0] in g.heap && g.heap[l[0]].body.Table? then ClearTables(ClearTable(g, l[0]), l[1..])
    else ClearTables(g, l[1..])
  }

  lemma {:induction false} TestedInNodesHolds(h: Heap, nodes: seq<Node>, v: Value)
    ensures v in TestedInNodes(h, nodes) <==>
            exists n :: n in nodes && !n.val.Nil? && (v == n.key || (v == n.val && !IsCleared(h, n.key, true)))
  {
    if nodes != [] {
      var k := |nodes| - 1;
      TestedInNodesHolds(h, nodes[..k], v);
      assert nodes == nodes[..k] + [nodes[k]];
    }
  }

  /** No reference of the object leads to something white. */
  ghost predicate SeesMarked(h: Heap, b: Body) {
    forall x :: Sees(h, b, x) ==> Marked(h, Ref(x))
  }

  lemma ArrayTested(h: Heap, b: Body, v: Value)
    requires b.Table? && b.bits.values && v in b.arr
    ensures v in Tested(h, b)
  {
    var r := Backwards(b.arr);
    var i :| 0 <= i < |b.arr| && b.arr[i] == v;
    assert r[|r| - 1 - i] == v;
  }

  lemma ClearedSees(h: Heap, b: Body, x: Id)
    requires b.Table? && Sees(h, ClearedBody(h, b), x)
    ensures Sees(h, b, x)
    ensures || b.meta == Ref(x)
            || (!b.bits.values && Ref(x) in b.arr)
            || (Ref(x) in Tested(h, b) && (h.Keys >= {x} ==> !IsCleared(h, Ref(x), true)))
  {
    var c := ClearedBody(h, b);
    if Ref(x) in c.arr && b.bits.values {
      var i :| 0 <= i < |c.arr| && c.arr[i] == Ref(x);
      assert b.arr[i] == Ref(x);
      ArrayTested(h, b, Ref(x));
    } else if b.meta != Ref(x) && Ref(x) !in c.arr {
      var n :| n in c.nodes && !n.val.Nil? && (n.key == Ref(x) || n.val == Ref(x));
      var i :| 0 <= i < |c.nodes| && c.nodes[i] == n;
      assert b.nodes[i] == n && b.nodes[i] in b.nodes;
      TestedInNodesHolds(h, b.nodes, Ref(x));
    }
  }

  /** A reference that survives clearing is strong, or a string, or was found marked. */
  lemma ClearedMarked(h: Heap, h': Heap, b: Body, x: Id)
    requires x in h && WeakDone(h, b) && Sees(h, ClearedBody(h, b), x)
    requires h' == MarkStrings(h, Tested(h, b))
    ensures x in h' && !h'[x].color.White?
  {
    ClearedSees(h, b, x);
    if b.meta == Ref(x) || (!b.bits.values && Ref(x) in b.arr) {
      assert SeesStrongly(h, b, x);
      assert Marked(h, Ref(x));
    }
  }

  /** Clearing a weak table leaves no reference from it to a white object. */
  lemma ClearTableMarks(g: G, t: Id)
    requires t in g.heap && NoDangling(g.heap) && WeakDone(g.heap, g.heap[t].body)
    ensures SeesMarked(ClearTable(g, t).heap, ClearTable(g, t).heap[t].body)
  {
    var h, b, r := g.heap, g.heap[t].body, ClearTable(g, t).heap;
    forall x | Sees(r, r[t].body, x)
      ensures Marked(r, Ref(x))
    {
      assert Sees(h, ClearedBody(h, b), x);
      ClearedSees(h, b, x);
      assert Refers(h, t, x);
      ClearedMarked(h, MarkStrings(h, Tested(h, b)), b, x);
    }
  }

  lemma ClearTableKeeps(g: G, t: Id)
    requires t in g.heap && g.heap[t].body.Table?
    ensures SameShape(g.heap, ClearTable(g, t).heap) && KeepsMarks(g.heap, ClearTable(g, t).heap)
    ensures StringsOnly(g.heap, ClearTable(g, t).heap)
    ensures forall o :: o in g.heap && o != t ==> ClearTable(g, t).heap[o].body == g.heap[o].body
  {
    forall x | Sees(g.heap, ClearedBody(g.heap, g.heap[t].body), x)
      ensures Sees(g.heap, g.heap[t].body, x)
    {
      ClearedSees(g.heap, g.heap[t].body, x);
    }
  }

  lemma SeesMarkedStays(h: Heap, h': Heap, b: Body, b': Body)
    requires SameShape(h, h') && KeepsMarks(h, h') && SeesMarked(h, b)
    requires b' == b || SeesNoMore(h, b, b')
    ensures SeesMarked(h', b')
  {
    forall x | Sees(h', b', x)
      ensures Marked(h', Ref(x))
    {
      if b'.Upval? { UpvalShape(h, h', b'.loc); }
      assert Sees(h, b', x);
    }
  }

  lemma WeakDoneStays(h: Heap, h': Heap, b: Body)
    requires KeepsMarks(h, h') && WeakDone(h, b)
    ensures WeakDone(h', b)
  {
    StrongStaysMarked(h, h', b);
  }

  /** A mark phase's colours: only strings turn from white to gray while tables are cleared. */
  ghost predicate StringsOnly(h: Heap, h': Heap) {
    && h'.Keys == h.Keys
    && forall o :: o in h ==> h'[o].color == h[o].color
                              || (h[o].body.String? && h[o].color.White? && h'[o].color == Gray)
  }

  lemma StringsOnlyTransitive(a: Heap, b: Heap, c: Heap)
    requires StringsOnly(a, b) && StringsOnly(b, c) && SameShape(a, b)
    ensures StringsOnly(a, c)
  {
    forall o | o in a
      ensures c[o].color == a[o].color || (a[o].body.String? && a[o].color.White? && c[o].color == Gray)
    {
      assert b[o].body.String? <==> a[o].body.String?;
    }
  }

  /** Only the tables of the list lost entries, and none of them refers to a white object. */
  ghost predicate ClearedAll(h: Heap, r: Heap, l: seq<Id>) {
    && SameShape(h, r) && KeepsMarks(h, r) && StringsOnly(h, r)
    && (forall o :: o in h && o !in l ==> r[o].body == h[o].body)
    && (forall t :: t in l ==> t in r && SeesMarked(r, r[t].body))
  }

  lemma ClearedCons(h: Heap, n: Heap, r: Heap, t: Id, l: seq<Id>)
    requires t in h && t !in l
    requires SameShape(h, n) && KeepsMarks(h, n) && StringsOnly(h, n)
    requires forall o :: o in h && o != t ==> n[o].body == h[o].body
    requires SeesMarked(n, n[t].body)
    requires ClearedAll(n, r, l)
    ensures ClearedAll(h, r, [t] + l)
  {
    SameShapeTransitive(h, n, r);
    StringsOnlyTransitive(h, n, r);
    assert r[t].body == n[t].body;
    SeesMarkedStays(n, r, n[t].body, r[t].body);
  }

  /** After `cleartable`, no table of the list refers to a white object, and no other object changed. */
  lemma {:induction false} ClearTablesMarks(g: G, l: seq<Id>)
    requires NoDangling(g.heap) && NoDup(l)
    requires forall t :: t in l ==> t in g.heap && WeakDone(g.heap, g.heap[t].body)
    ensures ClearTables(g, l) == g.(heap := ClearTables(g, l).heap)
    ensures ClearedAll(g.heap, ClearTables(g, l).heap, l)
    decreases |l|
  {
    hide SeesMarked, Tested, ClearedBody;
    if l != [] {
      var t, rest := l[0], l[1..];
      assert l == [t] + rest;
      assert t in l;
      var n := ClearTable(g, t);
      ClearTableMarks(g, t);
      ClearTableKeeps(g, t);
      SameShapeNoDangling(g.heap, n.heap);
      forall x | x in rest
        ensures x in n.heap && WeakDone(n.heap, n.heap[x].body)
      {
        assert x in l && x != t;
        WeakDoneStays(g.heap, n.heap, g.heap[x].body);
      }
      ClearTablesMarks(n, rest);
      ClearedCons(g.heap, n.heap, ClearTables(n, rest).heap, t, rest);
    }
  }

  // What is left in a cleared table

  /** An object, other than a string, that was not marked. */
  predicate Collected(h: Heap, v: Value) { v.Ref? && v.id in h && !h[v.id].body.String? && h[v.id].color.White? }

  /** A userdata whose finalizer was called, or is to be. */
  predicate FinalizedData(h: Heap, v: Value) { v.Ref? && v.id in h && h[v.id].body.Userdata? && h[v.id].body.finalized }

  /** A value that goes leaves nil in the array; values that are kept stay where they are. */
  predicate SlotLeft(h: Heap, v: Value, w: Value) {
    if Collected(h, v) || FinalizedData(h, v) then w == Nil else w == v
  }

  /** An entry goes with its key or its value; its key is then dead. */
  predicate NodeLeft(h: Heap, n: Node, m: Node) {
    if n.val.Nil? then m == n
    else if Collected(h, n.key) || Collected(h, n.val) || FinalizedData(h, n.val) then
      m.val == Nil && m.key == if n.key.Ref? then DeadKey(n.key.id) else n.key
    else m == n
  }

  /** The array is looked at only where values are weak. */
  ghost predicate TableLeft(h: Heap, b: Body, c: Body) {
    && b.Table? && c.Table? && c == b.(arr := c.arr, nodes := c.nodes) && |c.arr| == |b.arr| && |c.nodes| == |b.nodes|
    && (forall i :: 0 <= i < |b.arr| ==>
                      if b.bits.values then SlotLeft(h, b.arr[i], c.arr[i]) else c.arr[i] == b.arr[i])
    && (forall i :: 0 <= i < |b.nodes| ==> NodeLeft(h, b.nodes[i], c.nodes[i]))
  }

  /**
    A cleared table keeps just the entries that hold no unmarked object, other than strings, and no finalized userdata
    as a value.
   */
  lemma ClearTableLeaves(g: G, t: Id)
    requires t in g.heap && g.heap[t].body.Table?
    ensures TableLeft(g.heap, g.heap[t].body, ClearTable(g, t).heap[t].body)
  {
    hide Tested, MarkStrings, ClearedBody, TableLeft;
    BodyLeft(g.heap, g.heap[t].body);
  }

  lemma BodyLeft(h: Heap, b: Body)
    requires b.Table?
    ensures TableLeft(h, b, ClearedBody(h, b))
  {
  }

  /** Marking strings and clearing other tables does not change what is to go. */
  lemma LeftSame(h: Heap, n: Heap, b: Body, c: Body)
    requires SameShape(h, n) && StringsOnly(h, n) && TableLeft(n, b, c)
    ensures TableLeft(h, b, c)
  {
    forall v
      ensures Collected(n, v) == Collected(h, v) && FinalizedData(n, v) == FinalizedData(h, v)
    {
      if v.Ref? && v.id in h {
        assert n[v.id].body.String? <==> h[v.id].body.String?;
        assert n[v.id].body.Userdata? || h[v.id].body.Userdata? ==> n[v.id].body == h[v.id].body;
      }
    }
  }

  lemma ClearTablesFrame(g: G, l: seq<Id>, o: Id)
    requires o in g.heap && o !in l
    ensures ClearTables(g, l).heap[o].body == g.heap[o].body
    decreases |l|
  {
    if l != [] {
      if l[0] in g.heap && g.heap[l[0]].body.Table? {
        ClearTableKeeps(g, l[0]);
        ClearTablesFrame(ClearTable(g, l[0]), l[1..], o);
      } else {
        ClearTablesFrame(g, l[1..], o);
      }
    }
  }

  /** The same for all tables of the list, by the colours before any of them was cleared. */
  lemma {:induction false} ClearTablesLeave(g: G, l: seq<Id>)
    requires NoDup(l) && forall t :: t in l ==> t in g.heap && g.heap[t].body.Table?
    ensures forall t :: t in l ==> TableLeft(g.heap, g.heap[t].body, ClearTables(g, l).heap[t].body)
    decreases |l|
  {
    hide TableLeft, ClearTable, SameShape, StringsOnly;
    if l != [] {
      var t, rest := l[0], l[1..];
      assert l == [t] + rest;
      var n := ClearTable(g, t);
      ClearTableKeeps(g, t);
      ClearTableLeaves(g, t);
      assert t in l;
      TailNoDup(l);
      forall x | x in rest
        ensures x in n.heap && n.heap[x].body.Table? && n.heap[x].body == g.heap[x].body && x != t
      {
        assert x in l;
        ClearKeys1(g, t);
      }
      ClearTablesLeave(n, rest);
      assert t !in rest;
      ClearKeys1(g, t);
      ClearTablesFrame(n, rest, t);
      forall x | x in rest
        ensures TableLeft(g.heap, g.heap[x].body, ClearTables(g, l).heap[x].body)
      {
        LeftSame(g.heap, n.heap, g.heap[x].body, ClearTables(g, l).heap[x].body);
      }
    }
  }

  lemma ClearKeys1(g: G, t: Id)
    requires t in g.heap && g.heap[t].body.Table?
    ensures ClearTable(g, t).heap.Keys == g.heap.Keys
  {
  }
}
