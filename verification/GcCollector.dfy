/** The collector as the program runs it: `global_State`, updated in place. */
module GcCollector {
  import opened GcState
  import opened GcLists
  import opened GcMark
  import opened GcPropagate
  import opened GcAtomic
  import opened GcClear
  import opened GcInvariant
  import opened GcUpval
  import opened GcClose
  import opened GcCycle
  import opened GcSweep
  import opened GcMutator
  import opened GcOps
  import opened GcSafety
  import opened GcExact
  import opened GcFull
  import opened GcGarbage
  import opened GcWeak
  import opened GcLoops

  class Collector {
    var heap: Heap
    var rootgc: seq<Id>
    var sweepgc: nat
    var strt: seq<seq<Id>>
    var sweepstrgc: nat
    var gray: seq<Id>
    var grayagain: seq<Id>
    var weak: seq<Id>
    var tmudata: seq<Id>
    var uvhead: seq<Id>
    var white: bool
    var phase: Phase
    var main: Id
    var cur: Id
    var registry: Value
    var mt: seq<Value>

    /** The state as a value. */
    function Snap(): G
      reads this
    {
      G(heap, rootgc, sweepgc, strt, sweepstrgc, gray, grayagain, weak, tmudata, uvhead, white, phase, main, cur,
        registry, mt)
    }

    /** `lua_newstate`. */
    constructor ()
      ensures Snap() == Initial() && Inv(Snap())
    {
      var strong := Mode(false, false);
      heap := map[
        0 := Obj(White(false), true, Thread(Ref(1), [], [])),
        1 := Obj(White(false), false, Table(Nil, strong, strong, [], [])),
        2 := Obj(White(false), false, Table(Nil, strong, strong, [], []))];
      rootgc, sweepgc, strt, sweepstrgc := [2, 1, 0], 0, seq(MINSTRTABSIZE, _ => []), 0;
      gray, grayagain, weak, tmudata, uvhead := [], [], [], [], [];
      white, phase, main, cur := false, Pause, 0, 0;
      registry, mt := Ref(2), seq(NUM_TAGS, _ => Nil);
      new;
      hide Inv;
      InitialInv();
    }

    // Marking

    /** `markvalue` and `markobject`. */
    method MarkValue(v: Value)
      modifies this`heap, this`gray
      ensures Snap() == Put(old(Snap()), GcMark.MarkValue(Mk(old(Snap())), v))
      decreases Whites(heap), 1
    {
      if v.Ref? && v.id in heap && heap[v.id].color.White? {
        ReallyMark(v.id);
      }
    }

    /** `reallymarkobject`. */
    method ReallyMark(o: Id)
      requires o in heap && heap[o].color.White?
      modifies this`heap, this`gray
      ensures Snap() == Put(old(Snap()), GcMark.ReallyMark(Mk(old(Snap())), o))
      decreases Whites(heap), 0
    {
      hide Whites, GcMark.MarkAll, GcMark.MarkValue;
      ghost var h := heap;
      PaintShrinksWhites(h, o, Gray);
      PaintShrinksWhites(h, o, Black);
      WhitesHas(h, o);
      heap := Paint(heap, o, Gray);
      match heap[o].body {
        case String(_) =>
        case Userdata(meta, env, _, _) =>
          heap := Paint(heap, o, Black);
          assert heap == Paint(h, o, Black);
          MarkTwo(Marker(heap, gray), meta, env);
          MarkValue(meta);
          MarkValue(env);
        case Upval(loc) =>
          assert UpvalValue(heap, loc) == UpvalValue(h, loc);
          MarkValue(UpvalValue(heap, loc));
          if loc.Closed? {
            heap := Paint(heap, o, Black);
          }
        case _ =>
          gray := [o] + gray;
      }
    }

    /** Mark the values of a sequence, first to last. */
    method MarkAll(vs: seq<Value>)
      modifies this`heap, this`gray
      ensures Snap() == Put(old(Snap()), GcMark.MarkAll(Mk(old(Snap())), vs))
    {
      for i := 0 to |vs|
        invariant Snap() == old(Snap()).(heap := heap, gray := gray)
        invariant GcMark.MarkAll(Mk(Snap()), vs[i..]) == GcMark.MarkAll(Mk(old(Snap())), vs)
      {
        assert vs[i..][1..] == vs[i + 1..];
        MarkValue(vs[i]);
      }
    }

    /** `traversetable`: mark from the last slot to the first; empty entries lose their keys. */
    method TraverseTable(t: Id) returns (isWeak: bool)
      requires t in heap && heap[t].body.Table? && heap[t].color == Black
      modifies this`heap, this`gray, this`weak
      ensures var g := old(Snap());
              var b := g.heap[t].body;
              var m := GcMark.MarkAll(Mk(g), Children(b));
              && isWeak == IsWeak(b)
              && t in m.heap
              && Snap() == g.(heap := Rebody(m.heap, t, Traversed(b)), gray := m.gray,
                              weak := if isWeak then [t] + g.weak else g.weak)
    {
      hide GcMark.MarkAll, GcMark.MarkValue, Children, NodeMarks, RemoveEmpty, Backwards, Whites;
      ghost var m := Mk(Snap());
      var b := heap[t].body;
      TableMarks(m, b);
      MarkLeaves(m, t, b.meta);
      MarkValue(b.meta);
      m := GcMark.MarkValue(m, b.meta);
      isWeak := b.mode.keys || b.mode.values;
      if isWeak {
        heap := Rebody(heap, t, b.(bits := b.mode));
        weak := [t] + weak;
      }
      ghost var x := heap[t];
      assert heap == m.heap[t := x];
      if b.mode.keys && b.mode.values {
        return;
      }
      if !b.mode.values {
        m := MarkArray(t, b.arr, m, x);
      }
      m := TraverseNodes(t, b, m, x);
    }

    /** The loop over the array part; `m` follows the marking without the table's own changes. */
    method MarkArray(t: Id, arr: seq<Value>, ghost m: Marker, ghost x: Obj) returns (ghost r: Marker)
      requires Neutral(m.heap, t, x) && heap == m.heap[t := x] && gray == m.gray
      modifies this`heap, this`gray
      ensures r == GcMark.MarkAll(m, Backwards(arr)) && Neutral(r.heap, t, x) && r.heap[t] == m.heap[t]
              && heap == r.heap[t := x] && gray == r.gray
    {
      hide GcMark.MarkAll, GcMark.MarkValue, Backwards;
      r := m;
      var i := |arr|;
      NoSlots(arr, m);
      while i > 0
        invariant 0 <= i <= |arr|
        invariant Neutral(r.heap, t, x) && r.heap[t] == m.heap[t] && heap == r.heap[t := x] && gray == r.gray
        invariant GcMark.MarkAll(r, Backwards(arr[..i])) == GcMark.MarkAll(m, Backwards(arr))
      {
        i := i - 1;
        BackwardsStep(r, arr, i);
        MarkValueWith(r, t, x, arr[i]);
        MarkLeaves(r, t, arr[i]);
        MarkValue(arr[i]);
        r := GcMark.MarkValue(r, arr[i]);
      }
      NoSlots(arr, r);
    }

    /** The loop over the nodes. */
    method TraverseNodes(t: Id, b: Body, ghost m: Marker, ghost x: Obj) returns (ghost r: Marker)
      requires b.Table? && x.body.Table? && x.body == b.(bits := x.body.bits)
      requires Neutral(m.heap, t, x) && heap == m.heap[t := x] && gray == m.gray
      modifies this`heap, this`gray
      ensures r == GcMark.MarkAll(m, NodeMarks(b.nodes, b.mode)) && t in r.heap && r.heap[t] == m.heap[t]
              && gray == r.gray
      ensures heap == r.heap[t := x.(body := x.body.(nodes := RemoveEmpty(b.nodes)))]
    {
      hide GcMark.MarkAll, GcMark.MarkValue, NodeMarks, RemoveEmpty, Visited;
      r := m;
      var i := |b.nodes|;
      ghost var y := x;
      NoNodes(b.nodes, m, b.mode);
      while i > 0
        invariant 0 <= i <= |b.nodes|
        invariant y == x.(body := x.body.(nodes := Visited(b.nodes, i)))
        invariant Neutral(r.heap, t, y) && r.heap[t] == m.heap[t] && heap == r.heap[t := y] && gray == r.gray
        invariant GcMark.MarkAll(r, NodeMarks(b.nodes[..i], b.mode)) == GcMark.MarkAll(m, NodeMarks(b.nodes, b.mode))
      {
        i := i - 1;
        var n := b.nodes[i];
        VisitedStep(b.nodes, i);
        MarkNodeStep(r, b.nodes, b.mode, i);
        MarkNodeWith(r, t, y, n, b.mode);
        r := MarkNode(r, n, b.mode);
        if n.val.Nil? {
          heap := Rebody(heap, t, heap[t].body.(nodes := heap[t].body.nodes[i := RemoveEntry(n)]));
          y := heap[t];
        } else {
          if !b.mode.keys {
            MarkValue(n.key);
          }
          if !b.mode.values {
            MarkValue(n.val);
          }
        }
      }
      NoNodes(b.nodes, r, b.mode);
    }

    /** `propagatemark`. */
    method PropagateMark()
      requires HasGray(Snap())
      modifies this`heap, this`gray, this`grayagain, this`weak
      ensures Snap() == GcPropagate.PropagateMark(old(Snap()))
    {
      hide GcMark.MarkAll, Traversed, Children, GcPropagate.PropagateMark, Whites, TableDone, Mk, Put;
      ghost var g := Snap();
      PropagateKinds(Snap());
      var o := gray[0];
      gray, heap := gray[1..], Paint(heap, o, Black);
      assert Snap() == g.(gray := g.gray[1..], heap := Paint(g.heap, o, Black));
      match heap[o].body {
        case Table(_, _, _, _, _) =>
          PropagateTable(o);
        case Closure(env, slots) =>
          MarkAll([env] + slots);
        case Thread(gt, stack, _) =>
          grayagain, heap := [o] + grayagain, Paint(heap, o, Gray);
          MarkAll([gt] + stack);
        case Proto(slots) =>
          MarkAll(slots);
      }
    }

    /** The case of a table: a weak one turns gray again. */
    method PropagateTable(t: Id)
      requires t in heap && heap[t].body.Table? && heap[t].color == Black
      modifies this`heap, this`gray, this`weak
      ensures Snap() == TableDone(old(Snap()), t)
    {
      hide GcMark.MarkAll, Whites, Traversed, Children;
      var isWeak := TraverseTable(t);
      if isWeak {
        heap := Paint(heap, t, Gray);
      }
    }

    /** `propagateall`. */
    method PropagateAll(ghost uv: bool, ghost except: set<Id>)
      requires Tri(Snap(), uv, except) && NoDangling(heap)
      modifies this`heap, this`gray, this`grayagain, this`weak
      ensures Snap() == GcAtomic.PropagateAll(old(Snap())) && gray == []
    {
      hide Tri, NoDangling, GcPropagate.PropagateMark;
      while gray != []
        invariant Snap() == old(Snap()).(heap := heap, gray := gray, grayagain := grayagain, weak := weak)
        invariant Tri(Snap(), uv, except) && NoDangling(heap)
        invariant GcAtomic.PropagateAll(Snap()) == GcAtomic.PropagateAll(old(Snap()))
        decreases Whites(heap), |gray|
      {
        PropagateKeepsTri(Snap(), uv, except);
        PropagateLess(Snap());
        PropagateFrame(Snap());
        PropagateMark();
      }
    }

    /** `remarkupvals`. */
    method RemarkUpvals()
      requires forall uv :: uv in uvhead ==> uv in heap && heap[uv].body.Upval?
      modifies this`heap, this`gray
      ensures Snap() == GcAtomic.RemarkUpvals(old(Snap()), old(uvhead))
    {
      hide GcMark.MarkValue;
      for i := 0 to |uvhead|
        invariant Snap() == old(Snap()).(heap := heap, gray := gray)
        invariant SameButColor(old(heap), heap)
        invariant GcAtomic.RemarkUpvals(Snap(), uvhead[i..]) == GcAtomic.RemarkUpvals(old(Snap()), uvhead)
      {
        var uv := uvhead[i];
        assert uvhead[i..][1..] == uvhead[i + 1..];
        assert uv in uvhead;
        if heap[uv].color == Gray {
          MarkValueBodies(Mk(Snap()), UpvalValue(heap, heap[uv].body.loc));
          MarkValue(UpvalValue(heap, heap[uv].body.loc));
        }
      }
    }

    /** `markroot`: the main thread, its globals, the registry, then the basic metatables. */
    method MarkRoot()
      requires main in heap && heap[main].body.Thread?
      modifies this`heap, this`gray, this`grayagain, this`weak, this`phase
      ensures Snap() == GcCycle.MarkRoot(old(Snap()))
    {
      hide GcCycle.MarkRoot, GcMark.MarkAll, Put, Mk;
      MarkRootIs(Snap());
      gray, grayagain, weak := [], [], [];
      MarkRootSet();
      phase := Propagate;
    }

    method MarkRootSet()
      requires main in heap && heap[main].body.Thread?
      modifies this`heap, this`gray
      ensures var g := old(Snap());
              Snap() == Put(g, GcMark.MarkAll(Mk(g), [Ref(g.main), g.heap[g.main].body.gt, g.registry] + g.mt))
    {
      hide GcMark.MarkAll, GcMark.MarkValue, Whites, SameButColor;
      MarkThree(Mk(Snap()), Ref(main), heap[main].body.gt, registry, mt);
      MainStays(Mk(Snap()), main);
      MarkValue(Ref(main));
      MarkValue(heap[main].body.gt);
      MarkValue(registry);
      MarkAll(mt);
    }

    /** `luaC_separateudata`, for userdata that are not marked. */
    method SeparateUdata()
      requires main in rootgc && NoDup(rootgc)
               && forall u :: u in Behind(rootgc, main) ==> u in heap && heap[u].body.Userdata?
      modifies this`heap, this`rootgc, this`tmudata
      ensures Snap() == GcCycle.SeparateUdata(old(Snap()))
    {
      hide Pick, NoDup, Behind, SplitState, IndexOf, GcCycle.SeparateUdata;
      ghost var g := Snap();
      ghost var l := Behind(rootgc, main);
      SeparateStart(g);
      var p := IndexOf(rootgc, main) + 1;
      ghost var j := 0;
      while p < |rootgc|
        invariant j <= |l| && |rootgc| - p == |l| - j
        invariant p == IndexOf(g.rootgc, g.main) + 1 + |Pick(g.heap, l[..j], false)|
        invariant Snap() == SplitState(g, l, j)
        decreases |rootgc| - p
      {
        SplitTurn(g, l, j);
        var curr := rootgc[p];
        var u := heap[curr].body;
        if !heap[curr].color.White? || u.finalized {
          p := p + 1;
        } else if !u.hasgc {
          heap := Rebody(heap, curr, u.(finalized := true));
          p := p + 1;
        } else {
          heap := Rebody(heap, curr, u.(finalized := true));
          rootgc := rootgc[..p] + rootgc[p + 1..];
          tmudata := tmudata + [curr];
        }
        j := j + 1;
      }
    }

    /** `marktmu`: userdata to finalize are marked, though they may be marked already. */
    method MarkTmu()
      requires forall u :: u in tmudata ==> u in heap
      modifies this`heap, this`gray
      ensures Snap() == MarkTmus(old(Snap()), old(tmudata))
    {
      hide GcMark.ReallyMark;
      for i := 0 to |tmudata|
        invariant Snap() == old(Snap()).(heap := heap, gray := gray) && heap.Keys == old(heap).Keys
        invariant MarkTmus(Snap(), tmudata[i..]) == MarkTmus(old(Snap()), tmudata)
      {
        var u := tmudata[i];
        assert u in tmudata && tmudata[i..][1..] == tmudata[i + 1..];
        heap := Paint(heap, u, White(white));
        ReallyMark(u);
      }
    }

    /** `iscleared`, which marks strings on the way. */
    method IsCleared(v: Value, isKey: bool) returns (cleared: bool)
      requires v.Ref? ==> v.id in heap
      modifies this`heap
      ensures cleared == GcClear.IsCleared(old(heap), v, isKey) && heap == Touch(old(heap), v)
      ensures cleared <==> Collected(old(heap), v) || (!isKey && FinalizedData(old(heap), v))
    {
      if !v.Ref? {
        return false;
      }
      if heap[v.id].body.String? {
        if heap[v.id].color.White? {
          heap := Paint(heap, v.id, Gray);
        }
        return false;
      }
      var x := heap[v.id];
      return x.color.White? || (x.body.Userdata? && !isKey && x.body.finalized);
    }

    /** `cleartable` on one table. */
    method ClearTable(t: Id)
      requires t in heap && heap[t].body.Table? && forall x :: Sees(heap, heap[t].body, x) ==> x in heap
      modifies this`heap
      ensures Snap() == GcClear.ClearTable(old(Snap()), t)
      ensures t in heap && TableLeft(old(heap), old(heap[t].body), heap[t].body)
    {
      hide GcClear.IsCleared, MarkStrings, Backwards, ClearValues, HalfCleared, TestedInNodes, HalfNodes, Partly, Touch;
      hide TableLeft;
      ClearTableLeaves(Snap(), t);
      ghost var h := heap;
      ghost var seen: seq<Value> := [];
      var b := heap[t].body;
      PartlyStart(h, t, b);
      if b.bits.values {
        seen := ClearArrayPart(t, b);
        PartlyBody(h, seen, t, b.(arr := GcClear.ClearValues(h, b.arr)));
      }
      ClearNodePart(t, h, b, seen);
      assert Partly(h, Tested(h, b), t, ClearedBody(h, b)) ==
               GcClear.ClearTable(old(Snap()), t).heap by { PartlyIs(h, Tested(h, b), t, ClearedBody(h, b)); }
    }

    method ClearArrayPart(t: Id, b: Body) returns (ghost seen: seq<Value>)
      requires t in heap && b == heap[t].body && b.Table? && forall x :: Sees(heap, b, x) ==> x in heap
      modifies this`heap
      ensures seen == Backwards(b.arr) && heap == Partly(old(heap), seen, t, b.(arr := ClearValues(old(heap), b.arr)))
    {
      hide GcClear.IsCleared, MarkStrings, Backwards, ClearValues, HalfCleared, Partly, Touch;
      ghost var h := heap;
      seen := [];
      PartlyStart(h, t, b);
      HalfClearedEnds(h, b.arr);
      var i := |b.arr|;
      while i > 0
        invariant 0 <= i <= |b.arr|
        invariant seen + Backwards(b.arr[..i]) == Backwards(b.arr)
        invariant heap == Partly(h, seen, t, b.(arr := HalfCleared(h, b.arr, i)))
      {
        i := i - 1;
        ghost var part := b.(arr := HalfCleared(h, b.arr, i + 1));
        HalfClearedStep(h, b.arr, i);
        PartlyBody(h, seen, t, part);
        PartlyTest(h, seen, t, part, b.arr[i], false);
        assert b.arr[i] in b.arr;
        var cleared := IsCleared(b.arr[i], false);
        seen := seen + [b.arr[i]];
        PartlyBody(h, seen, t, part);
        if cleared {
          heap := Rebody(heap, t, heap[t].body.(arr := heap[t].body.arr[i := Nil]));
        }
      }
    }

    method ClearNodePart(t: Id, ghost h: Heap, b: Body, ghost before: seq<Value>)
      requires t in h && b.Table? && h[t].body.Table? && forall x :: Sees(h, b, x) ==> x in h
      requires heap.Keys == h.Keys
      requires heap == Partly(h, before, t, b.(arr := if b.bits.values then ClearValues(h, b.arr) else b.arr))
      modifies this`heap
      ensures heap == Partly(h, before + TestedInNodes(h, b.nodes), t, ClearedBody(h, b))
    {
      hide GcClear.IsCleared, MarkStrings, Backwards, ClearValues, TestedInNodes, HalfNodes, Partly, Touch;
      ghost var seen := before;
      ghost var a := b.(arr := if b.bits.values then ClearValues(h, b.arr) else b.arr);
      HalfNodesEnds(h, b.nodes);
      var i := |b.nodes|;
      while i > 0
        invariant 0 <= i <= |b.nodes| && heap.Keys == h.Keys
        invariant seen + TestedInNodes(h, b.nodes[..i]) == before + TestedInNodes(h, b.nodes)
        invariant heap == Partly(h, seen, t, a.(nodes := HalfNodes(h, b.nodes, i)))
      {
        i := i - 1;
        var n := b.nodes[i];
        ghost var part := a.(nodes := HalfNodes(h, b.nodes, i + 1));
        HalfNodesStep(h, b.nodes, i);
        assert n in b.nodes;
        if !n.val.Nil? {
          var cleared := TestNode(t, h, part, seen, n);
          seen := seen + TestedInNode(h, n);
          PartlyBody(h, seen, t, part);
          if cleared {
            heap := Rebody(heap, t, heap[t].body.(nodes := heap[t].body.nodes[i := RemoveEntry(n)]));
          }
        }
      }
      assert seen + [] == seen;
    }

    /** The test of one node: the value is looked at only when the key is not cleared. */
    method TestNode(t: Id, ghost h: Heap, ghost part: Body, ghost seen: seq<Value>, n: Node) returns (cleared: bool)
      requires t in h && h[t].body.Table? && part.Table? && !n.val.Nil? && heap.Keys == h.Keys
      requires (n.key.Ref? ==> n.key.id in h) && (n.val.Ref? ==> n.val.id in h)
      requires heap == Partly(h, seen, t, part)
      modifies this`heap
      ensures cleared == (GcClear.IsCleared(h, n.key, true) || GcClear.IsCleared(h, n.val, false))
      ensures heap.Keys == h.Keys && heap == Partly(h, seen + TestedInNode(h, n), t, part)
    {
      hide GcClear.IsCleared, Partly, Touch;
      PartlyTest(h, seen, t, part, n.key, true);
      PartlyBody(h, seen + [n.key], t, part);
      cleared := IsCleared(n.key, true);
      if !cleared {
        PartlyTest(h, seen + [n.key], t, part, n.val, false);
        PartlyBody(h, seen + [n.key] + [n.val], t, part);
        cleared := IsCleared(n.val, false);
        assert seen + [n.key] + [n.val] == seen + [n.key, n.val];
      }
    }

    /** `cleartable` on the list of weak tables. */
    method ClearTables()
      requires NoDangling(heap) && NoDup(weak) && forall t :: t in weak ==> t in heap && heap[t].body.Table?
      modifies this`heap
      ensures Snap() == GcClear.ClearTables(old(Snap()), old(weak))
    {
      hide GcClear.ClearTable, NoDangling, NoDup, Sees, StillToClear;
      ghost var g := Snap();
      ClearStart(g.heap, weak);
      for i := 0 to |weak|
        invariant Snap() == g.(heap := heap) && StillToClear(g.heap, heap, weak, i)
        invariant GcClear.ClearTables(Snap(), weak[i..]) == GcClear.ClearTables(g, weak)
      {
        ClearNext(g, Snap(), weak, i);
        ClearTable(weak[i]);
      }
    }

    /** `atomic`, first: remark the open upvalues and traverse what that leaves gray. */
    method MarkUpvals()
      requires Inv(Snap()) && phase == Propagate && gray == []
      modifies this`heap, this`gray, this`grayagain, this`weak
      ensures Snap() == Stage1(old(Snap()))
    {
      hide Inv, Tri, NoDangling, GcAtomic.RemarkUpvals, GcAtomic.PropagateAll, Elems;
      RestTri(Snap());
      RemarkUpvals();
      PropagateAll(true, Elems(tmudata));
    }

    /**
      Then the weak tables again, with the running thread and the basic metatables; `g` is the state `atomic` began in.
     */
    method MarkWeak(ghost g: G)
      requires Inv(g) && g.phase == Propagate && g.gray == [] && Snap() == Stage1(g)
      modifies this`heap, this`gray, this`grayagain, this`weak
      ensures Snap() == Stage2(g)
    {
      hide Inv, Tri, NoDangling, Stage1, GcAtomic.PropagateAll, GcMark.MarkAll, Elems;
      RestTri(g);
      gray := weak;
      weak := [];
      MarkAll([Ref(cur)] + mt);
      PropagateAll(true, Elems(tmudata));
    }

    /** Then what barriers and stacks left gray. */
    method MarkGrayAgain(ghost g: G)
      requires Inv(g) && g.phase == Propagate && g.gray == [] && Snap() == Stage2(g)
      modifies this`heap, this`gray, this`grayagain, this`weak
      ensures Snap() == Stage3(g)
    {
      hide Inv, Tri, NoDangling, Stage2, GcAtomic.PropagateAll, Elems;
      RestTri(g);
      gray := grayagain;
      grayagain := [];
      PropagateAll(true, Elems(tmudata));
    }

    /** The part of `atomic` that keeps userdata for their finalizers; `g` is the state it started in. */
    method MarkPreserved(ghost g: G)
      requires Inv(g) && g.phase == Propagate && g.gray == [] && Snap() == Stage3(g)
      modifies this`heap, this`rootgc, this`gray, this`grayagain, this`weak, this`tmudata
      ensures Snap() == Stage5(g)
    {
      hide Inv, Tri, NoDangling, Stage3, GcAtomic.PropagateAll, MarkTmus, GcCycle.SeparateUdata, NoDup, Behind, Elems;
      FinishTri(g);
      SeparateUdata();
      ghost var except := Elems(tmudata);
      MarkTmu();
      PropagateAll(true, except);
    }

    /** `atomic`. */
    method Atomic()
      requires Inv(Snap()) && phase == Propagate && gray == []
      modifies this`heap, this`rootgc, this`gray, this`grayagain, this`weak, this`tmudata, this`white
      modifies this`sweepstrgc, this`sweepgc, this`phase
      ensures Snap() == GcCycle.Atomic(old(Snap()))
    {
      hide Inv, Tri, NoDangling, Stage1, Stage2, Stage3, Stage5, GcClear.ClearTables, NoDup;
      ghost var g := Snap();
      FinishTri(g);
      MarkUpvals();
      MarkWeak(g);
      MarkGrayAgain(g);
      MarkPreserved(g);
      ClearTables();
      white := !white;
      sweepstrgc := 0;
      sweepgc := 0;
      phase := SweepString;
    }

    // Barriers and links

    /** `luaC_barrierf`. */
    method BarrierForward(o: Id, v: Id)
      requires o in heap && v in heap && heap[v].color.White?
      modifies this`heap, this`gray
      ensures Snap() == GcUpval.BarrierForward(old(Snap()), o, v)
    {
      if phase == Propagate {
        ReallyMark(v);
      } else {
        heap := Paint(heap, o, White(white));
      }
    }

    /** `luaC_barrier` and `luaC_objbarrier`. */
    method Barrier(o: Id, v: Value)
      requires o in heap
      modifies this`heap, this`gray
      ensures Snap() == GcUpval.Barrier(old(Snap()), o, v)
    {
      if IsWhite(Snap(), v) && heap[o].color == Black {
        BarrierForward(o, v.id);
      }
    }

    /** `luaC_barrierback`, with the test of `luaC_barriert`. */
    method BarrierBack(t: Id, v: Value)
      requires t in heap
      modifies this`heap, this`grayagain
      ensures Snap() == GcUpval.BarrierBack(old(Snap()), t, v)
    {
      if IsWhite(Snap(), v) && heap[t].color == Black {
        heap := Paint(heap, t, Gray);
        grayagain := [t] + grayagain;
      }
    }

    /** A store into an object, with the barrier of its kind. */
    method Store(o: Id, body: Body, v: Value)
      requires Inv(Snap()) && Enabled(Snap(), Write(o, body, v))
      modifies this`heap, this`gray, this`grayagain
      ensures Snap() == Apply(old(Snap()), Write(o, body, v)) && Inv(Snap())
    {
      hide Inv, Reachable, Sees, Stores, GcUpval.Barrier, GcUpval.BarrierBack;
      ApplyKeepsInv(Snap(), Write(o, body, v));
      heap := Rebody(heap, o, body);
      if body.Table? {
        BarrierBack(o, v);
      } else {
        Barrier(o, v);
      }
    }

    /** Link `o` at the head of the root list. */
    method LinkFirst(o: Id)
      modifies this`rootgc, this`sweepgc
      ensures Snap() == InsertAt(old(Snap()), 0, o)
    {
      rootgc := [o] + rootgc;
      if sweepgc > 0 {
        sweepgc := sweepgc + 1;
      }
      assert rootgc == Insert(old(rootgc), 0, o);
    }

    /** `luaC_link`, and `luaS_newudata`, which links behind the main thread. */
    method Link(id: Id, body: Body)
      modifies this`heap, this`rootgc, this`sweepgc
      ensures Snap() == GcMutator.Link(old(Snap()), id, body)
    {
      heap := heap[id := Obj(White(white), false, body)];
      if body.Userdata? && main in rootgc {
        var k := IndexOf(rootgc, main) + 1;
        rootgc := rootgc[..k] + [id] + rootgc[k..];
        if sweepgc > k {
          sweepgc := sweepgc + 1;
        }
      } else {
        LinkFirst(id);
      }
    }

    /** `luaC_linkupval`. */
    method LinkUpval(uv: Id)
      requires uv in heap && heap[uv].body.Upval?
      modifies this`heap, this`gray, this`rootgc, this`sweepgc
      ensures Snap() == GcUpval.LinkUpval(old(Snap()), uv)
    {
      hide GcUpval.Barrier, Insert, UpvalValue;
      LinkFirst(uv);
      if heap[uv].color == Gray {
        if phase == Propagate {
          var v := UpvalValue(heap, heap[uv].body.loc);
          heap := Paint(heap, uv, Black);
          Barrier(uv, v);
        } else {
          heap := Paint(heap, uv, White(white));
        }
      }
    }

    // Open upvalues

    /** `luaF_close`. */
    method Close(th: Id, level: nat)
      requires Inv(Snap()) && IsThread(Snap(), th)
      modifies this`heap, this`gray, this`rootgc, this`sweepgc, this`uvhead
      ensures Snap() == GcUpval.Close(old(Snap()), th, level)
      ensures Inv(Snap())
    {
      hide Inv, GcUpval.CloseFirst;
      while heap[th].body.openupval != [] && Level(heap, heap[th].body.openupval[0]) >= level
        invariant Snap() == old(Snap()).(heap := heap, gray := gray, rootgc := rootgc, sweepgc := sweepgc,
                                         uvhead := uvhead)
        invariant Inv(Snap()) && IsThread(Snap(), th)
        invariant GcUpval.Close(Snap(), th, level) == GcUpval.Close(old(Snap()), th, level)
        decreases |heap[th].body.openupval|
      {
        CloseFirstShrinks(Snap(), th);
        CloseFirstInv(Snap(), th);
        CloseFirst(th);
      }
    }

    /** One turn of its loop. */
    method CloseFirst(th: Id)
      requires Inv(Snap()) && IsThread(Snap(), th) && heap[th].body.openupval != []
      modifies this`heap, this`gray, this`rootgc, this`sweepgc, this`uvhead
      ensures Snap() == GcUpval.CloseFirst(old(Snap()), th)
    {
      hide Inv, GcUpval.LinkUpval, Without, UpvalValue;
      FirstOpenUpval(Snap(), th);
      var l := heap[th].body.openupval;
      var uv := l[0];
      heap := Rebody(heap, th, heap[th].body.(openupval := l[1..]));
      uvhead := Without(uvhead, uv);
      if Dead(Snap(), uv) {
        heap := heap - {uv};
      } else {
        heap := Rebody(heap, uv, Upval(Closed(UpvalValue(heap, heap[uv].body.loc))));
        LinkUpval(uv);
      }
    }

    // Sweeping

    /** `sweepwholelist` on strings or on open upvalues; the list that remains is returned. */
    method SweepWholeList(l: seq<Id>) returns (kept: seq<Id>)
      requires NoDup(l) && forall x :: x in l ==> x in heap && (IsOpen(heap[x].body) || x !in uvhead)
      modifies this`heap, this`uvhead
      ensures var g := old(Snap());
              kept == Survivors(g, l) && Snap() == g.(heap := SweptHeap(g, l), uvhead := KeepOpen(g, l, g.uvhead))
    {
      hide Survivors, SweptHeap, KeepOpen, NoDup, Without, Dies;
      ghost var g := Snap();
      SweepStart(g, l);
      kept := [];
      for j := 0 to |l|
        invariant kept == Survivors(g, l[..j])
        invariant Snap() == g.(heap := SweptHeap(g, l[..j]), uvhead := KeepOpen(g, l[..j], g.uvhead))
      {
        SweepTurn(g, l, j);
        var curr := l[j];
        if !(heap[curr].color == White(!white)) || heap[curr].fixed {
          heap := Paint(heap, curr, White(white));
          kept := kept + [curr];
        } else {
          if IsOpen(heap[curr].body) {
            uvhead := Without(uvhead, curr);
          }
          heap := heap - {curr};
        }
      }
      assert l[..|l|] == l;
    }

    /** `freeobj` on an object of the root list. */
    method FreeObj(o: Id)
      requires Inv(Snap()) && o in heap
      modifies this`heap, this`gray, this`rootgc, this`sweepgc, this`uvhead
      ensures Snap() == GcSweep.FreeObj(old(Snap()), o)
    {
      hide Inv, GcUpval.CloseFirst, Without;
      if heap[o].body.Thread? {
        Close(o, 0);
      }
      heap := heap - {o};
      rootgc := Without(rootgc, o);
    }

    /** One turn of `sweeplist` on the root list. */
    method SweepOne()
      requires Inv(Snap()) && phase == Sweep && sweepgc < |rootgc|
      modifies this`heap, this`gray, this`rootgc, this`sweepgc, this`uvhead
      ensures CanSweep(old(Snap())) && Snap() == GcSweep.SweepOne(old(Snap()))
    {
      hide Inv, GcSweep.FreeObj, Survivors, SweptHeap, KeepOpen;
      ghost var g := Snap();
      SweepUnder(g);
      var curr := rootgc[sweepgc];
      if heap[curr].body.Thread? {
        ThreadList(g, curr);
        SweepUpvalsKeepsInv(g, curr);
        var kept := SweepWholeList(heap[curr].body.openupval);
        heap := Rebody(heap, curr, heap[curr].body.(openupval := kept));
      }
      if heap[curr].color != White(!white) || heap[curr].fixed {
        heap := Paint(heap, curr, White(white));
        sweepgc := sweepgc + 1;
      } else {
        FreeObj(curr);
      }
    }

    /** `sweeplist` on the root list, at most `count` objects. */
    method SweepList(count: nat)
      requires Inv(Snap()) && phase == Sweep
      modifies this`heap, this`gray, this`rootgc, this`sweepgc, this`uvhead
      ensures Snap() == SweepSome(old(Snap()), count)
      ensures Inv(Snap())
    {
      hide Inv, GcSweep.SweepOne;
      var n := count;
      while sweepgc < |rootgc| && n > 0
        invariant Snap() == old(Snap()).(heap := heap, gray := gray, rootgc := rootgc, sweepgc := sweepgc,
                                         uvhead := uvhead)
        invariant Inv(Snap()) && SweepSome(Snap(), n) == SweepSome(old(Snap()), count)
        decreases n
      {
        SweepOneKeepsInv(Snap());
        SweepOne();
        n := n - 1;
      }
    }

    /** One list of the string table. */
    method SweepStrings()
      requires Inv(Snap()) && phase == SweepString
      modifies this`heap, this`strt, this`sweepstrgc, this`uvhead, this`phase
      ensures Snap() == GcSweep.SingleStep(old(Snap()))
    {
      hide Inv, Survivors, SweptHeap, KeepOpen, NoDup;
      ghost var g := Snap();
      StringList(g);
      var kept := SweepWholeList(strt[sweepstrgc]);
      strt := strt[sweepstrgc := kept];
      sweepstrgc := sweepstrgc + 1;
      if sweepstrgc >= |strt| {
        phase := Sweep;
      }
    }

    /** The first userdata of `tmudata` returns to the root list, behind the main thread. */
    method TakeUdata()
      requires tmudata != [] && tmudata[0] in heap && main in rootgc
      modifies this`heap, this`rootgc, this`sweepgc, this`tmudata
      ensures Snap() == GcSweep.TakeUdata(old(Snap()))
    {
      hide IndexOf;
      var u := tmudata[0];
      tmudata := tmudata[1..];
      var k := IndexOf(rootgc, main) + 1;
      rootgc := rootgc[..k] + [u] + rootgc[k..];
      if sweepgc > k {
        sweepgc := sweepgc + 1;
      }
      heap := Paint(heap, u, White(white));
    }

    /** `GCTM`: the userdata is pushed for its finalizer. */
    method CallFinalizer()
      requires Inv(Snap()) && phase == Finalize && tmudata != []
      modifies this`heap, this`rootgc, this`sweepgc, this`tmudata
      ensures Snap() == Step(old(Snap()))
    {
      hide Inv, GcSweep.TakeUdata, PushValue;
      assert Linked(Snap()) by { InvParts(Snap()); }
      TmudataHead(Snap());
      var u := tmudata[0];
      TakeUdata();
      Push(Ref(u));
    }

    /** Push a value on the stack of the running thread. */
    method Push(v: Value)
      modifies this`heap
      ensures Snap() == PushValue(old(Snap()), v)
    {
      if cur in heap && heap[cur].body.Thread? {
        heap := Rebody(heap, cur, heap[cur].body.(stack := heap[cur].body.stack + [v]));
      }
    }

    /** `singlestep`. */
    method SingleStep()
      requires Inv(Snap())
      modifies this
      ensures Snap() == Step(old(Snap())) && Inv(Snap())
    {
      hide Inv, GcCycle.MarkRoot, GcCycle.Atomic, GcPropagate.PropagateMark;
      hide SweepBucket, SweepSome, GcSweep.TakeUdata, PushValue;
      ghost var g := Snap();
      StepKeepsInv(g);
      match phase {
        case Pause =>
          MainThread(g);
          MarkRoot();
        case Propagate =>
          if gray != [] {
            PropagateStepKeepsInv(g);
            PropagateMark();
          } else {
            Atomic();
          }
        case SweepString =>
          SweepStrings();
        case Sweep =>
          SweepList(GCSWEEPMAX);
          if sweepgc >= |rootgc| {
            phase := Finalize;
          }
        case Finalize =>
          if tmudata != [] {
            CallFinalizer();
          } else {
            phase := Pause;
          }
      }
    }

    /** The first loop of `luaC_fullgc`: finish any pending sweep. */
    method SweepPending()
      requires Inv(Snap()) && (Sweeping(Snap()) || phase == Finalize)
      modifies this
      ensures Inv(Snap()) && phase == Finalize && Snap() == FinishSweep(old(Snap()))
    {
      hide Inv, GcSweep.SingleStep, Work, Unmarked, Step;
      while phase != Finalize
        invariant Inv(Snap()) && (Sweeping(Snap()) || phase == Finalize)
        invariant FinishSweep(Snap()) == FinishSweep(old(Snap()))
        decreases Rank(phase), Unmarked(Snap()), Work(Snap())
      {
        StepProgress(Snap());
        SweepNext(Snap());
        SweepStepIs(Snap());
        SingleStep();
      }
    }

    /** Its second loop, which also calls the finalizers. */
    method CompleteCycle()
      requires Inv(Snap())
      modifies this
      ensures Inv(Snap()) && phase == Pause && Snap() == FinishCycle(old(Snap()))
    {
      hide Inv, Work, Unmarked, Step;
      while phase != Pause
        invariant Inv(Snap()) && FinishCycle(Snap()) == FinishCycle(old(Snap()))
        decreases Rank(phase), Unmarked(Snap()), Work(Snap())
      {
        CycleProgress(Snap());
        SingleStep();
      }
    }

    /** `luaC_fullgc`. */
    method FullGc()
      requires Inv(Snap())
      modifies this
      ensures Snap() == GcFull.FullGc(old(Snap())) && Inv(Snap()) && phase == Pause
      ensures old(NoFinalizers(Snap())) ==> forall o :: o in heap <==> Kept(old(Snap()), o) || Fixed(old(Snap()), o)
      ensures old(NoFinalizers(Snap())) ==>
                forall o :: Reachable(old(Snap()), true, o) ==> Survives(old(Snap()), heap, o)
    {
      hide Inv, NoFinalizers, StringsFixed, Kept, GcCycle.MarkRoot, FinishSweep, FinishCycle, Reset;
      hide Reachable, Survives;
      ghost var g := Snap();
      ResetKeepsInv(g);
      GiveUp();
      SweepPending();
      MarkRootKeepsInv(Snap());
      MainThread(Snap());
      MarkRoot();
      CompleteCycle();
      if NoFinalizers(g) {
        forall o
          ensures o in heap <==> Kept(g, o) || Fixed(g, o)
        {
          FullGcExact(g, o);
        }
        forall o | Reachable(g, true, o)
          ensures Survives(g, heap, o)
        {
          FullGcLeaves(g, o);
        }
      }
    }

    /** A collection that is still marking is given up. */
    method GiveUp()
      modifies this`sweepstrgc, this`sweepgc, this`gray, this`grayagain, this`weak, this`phase
      ensures Snap() == Reset(old(Snap()))
    {
      hide Reset;
      ResetIs(Snap());
      if phase == Pause || phase == Propagate {
        sweepstrgc, sweepgc, gray, grayagain, weak, phase := 0, 0, [], [], [], SweepString;
      }
    }

    // Strings

    /** `luaS_newlstr`. */
    method Intern(id: Id, text: seq<bv8>) returns (o: Id)
      requires Inv(Snap()) && id !in heap
      modifies this`heap, this`strt
      ensures Snap() == Apply(old(Snap()), GcMutator.Intern(id, text)) && Inv(Snap())
      ensures o in heap && heap[o].body == String(text)
    {
      hide Inv, Bucket, FindText;
      ghost var g := Snap();
      assert Enabled(g, GcMutator.Intern(id, text));
      ApplyKeepsInv(g, GcMutator.Intern(id, text));
      SizeOfTable(g);
      var j := Bucket(text, |strt|);
      var i := 0;
      FindNothing(heap, strt[j], text);
      while i < |strt[j]|
        invariant Snap() == g && j < |strt| && i <= |strt[j]|
        invariant FindText(heap, strt[j][i..], text) == FindText(heap, strt[j], text)
      {
        o := strt[j][i];
        FindNext(heap, strt[j], i, text);
        if o in heap && heap[o].body == String(text) {
          if Dead(Snap(), o) {
            heap := Paint(heap, o, White(white));
          }
          Push(Ref(o));
          PushedString(GcMutator.Resurrect(g, o), Ref(o), o);
          return;
        }
        i := i + 1;
      }
      o := id;
      heap := heap[id := Obj(White(white), false, String(text))];
      strt := strt[j := [id] + strt[j]];
      ghost var r := Snap();
      Push(Ref(id));
      PushedString(r, Ref(id), id);
    }

    /** The search of `luaF_findupval`: the first upvalue at `level` or below it. */
    method FindPlace(l: seq<Id>, level: nat) returns (pp: nat)
      ensures pp == Place(heap, l, level)
    {
      hide Level;
      pp := 0;
      assert l[0..] == l;
      while pp < |l| && Level(heap, l[pp]) > level
        invariant pp <= |l| && pp + Place(heap, l[pp..], level) == Place(heap, l, level)
      {
        assert l[pp..][1..] == l[pp + 1..];
        pp := pp + 1;
      }
    }

    /** `luaF_findupval`. */
    method FindUpval(th: Id, level: nat, id: Id)
      requires Inv(Snap()) && Enabled(Snap(), GcMutator.FindUpval(th, level, id))
      modifies this`heap, this`uvhead
      ensures Snap() == Apply(old(Snap()), GcMutator.FindUpval(th, level, id)) && Inv(Snap())
    {
      hide Inv, Enabled, Level, Insert, Reachable, PushValue, GcMutator.Resurrect;
      ApplyKeepsInv(Snap(), GcMutator.FindUpval(th, level, id));
      FindEnabled(Snap(), th, level, id);
      var l := heap[th].body.openupval;
      var pp := FindPlace(l, level);
      if pp < |l| && l[pp] in heap && Level(heap, l[pp]) == level {
        Resurrect(l[pp]);
        Push(Ref(l[pp]));
      } else {
        heap := heap[id := Obj(White(white), false, Upval(Open(th, level)))];
        heap := Rebody(heap, th, heap[th].body.(openupval := Insert(l, pp, id)));
        uvhead := [id] + uvhead;
        Push(Ref(id));
      }
    }

    /** `if (isdead(g, o)) changewhite(o)`. */
    method Resurrect(o: Id)
      requires o in heap
      modifies this`heap
      ensures Snap() == GcMutator.Resurrect(old(Snap()), o)
    {
      if Dead(Snap(), o) {
        heap := Paint(heap, o, White(white));
      }
    }

    /** `luaS_resize`. */
    method ResizeStrings(size: nat)
      requires Inv(Snap()) && size > 0
      modifies this`strt
      ensures Snap() == GcMutator.Resize(old(Snap()), size) && Inv(Snap())
    {
      hide Inv, Bucket, Chain, AllStrings;
      ghost var g := Snap();
      ResizeKeepsInv(g, size);
      if phase == SweepString {
        return;
      }
      var hash: seq<seq<Id>> := seq(size, _ => []);
      assert strt[0..] == strt;
      for i := 0 to |strt|
        invariant |hash| == size && Snap() == g
        invariant Chain(heap, AllStrings(strt[i..]), hash) == Chain(heap, AllStrings(strt), seq(size, _ => []))
      {
        var p := strt[i];
        AllStringsStep(strt, i);
        ghost var rest := AllStrings(strt[i + 1..]);
        ghost var want := Chain(heap, AllStrings(strt), seq(size, _ => []));
        assert p[0..] == p;
        for k := 0 to |p|
          invariant |hash| == size && Snap() == g
          invariant Chain(heap, p[k..] + rest, hash) == want
        {
          InTable(g, i, k);
          var h := Bucket(heap[p[k]].body.text, size);
          ChainStep(heap, p, k, rest, hash);
          hash := hash[h := [p[k]] + hash[h]];
        }
        assert p[|p|..] + rest == rest;
      }
      ChainEnd(heap, strt, hash);
      strt := hash;
    }
  }

  lemma StringList(g: G)
    requires Inv(g) && g.phase == SweepString
    ensures g.sweepstrgc < |g.strt|
    ensures var l := g.strt[g.sweepstrgc];
            && NoDup(l) && (forall x :: x in l ==> x in g.heap && x !in g.uvhead)
               && KeepOpen(g, l, g.uvhead) == g.uvhead
  {
    hide Safe, RootLinked, KeepOpen;
    SweepStringParts(g);
    assert UpvalsLinked(g.heap, g.uvhead) by { InvParts(g); }
    assert forall x :: x in g.uvhead ==> IsOpen(g.heap[x].body);
    KeepOpenSame(g, g.strt[g.sweepstrgc], g.uvhead);
  }

  lemma MainThread(g: G)
    requires Inv(g)
    ensures g.main in g.heap && g.heap[g.main].body.Thread?
  {
  }

  lemma SweepStepIs(g: G)
    requires Sweeping(g)
    ensures Step(g) == GcSweep.SingleStep(g)
  {
  }

  lemma PushedString(g: G, v: Value, o: Id)
    requires o in g.heap && g.heap[o].body.String?
    ensures o in PushValue(g, v).heap && PushValue(g, v).heap[o].body == g.heap[o].body
  {
  }

  lemma FindNext(h: Heap, l: seq<Id>, i: nat, text: seq<bv8>)
    requires i < |l|
    ensures FindText(h, l[i..], text) ==
              if l[i] in h && h[l[i]].body == String(text) then [l[i]] else FindText(h, l[i + 1..], text)
  {
    assert l[i..][1..] == l[i + 1..];
  }

  lemma FindNothing(h: Heap, l: seq<Id>, text: seq<bv8>)
    ensures l[0..] == l && FindText(h, l[|l|..], text) == []
  {
  }

  lemma FindEnabled(g: G, th: Id, level: nat, id: Id)
    requires Enabled(g, GcMutator.FindUpval(th, level, id))
    ensures IsThread(g, th) && id !in g.heap
  {
  }

  lemma AllStringsStep(strt: seq<seq<Id>>, i: nat)
    requires i < |strt|
    ensures AllStrings(strt[i..]) == strt[i] + AllStrings(strt[i + 1..])
  {
    assert strt[i..][1..] == strt[i + 1..];
  }

  lemma InTable(g: G, i: nat, k: nat)
    requires Inv(g) && i < |g.strt| && k < |g.strt[i]|
    ensures g.strt[i][k] in g.heap && g.heap[g.strt[i][k]].body.String?
  {
    hide UpvalsLinked, RootLinked, Safe;
    assert g.strt[i][k] in g.strt[i];
  }

  lemma ChainStep(h: Heap, p: seq<Id>, k: nat, rest: seq<Id>, hash: seq<seq<Id>>)
    requires k < |p| && |hash| > 0 && p[k] in h && h[p[k]].body.String?
    ensures var j := Bucket(h[p[k]].body.text, |hash|);
            Chain(h, p[k..] + rest, hash) == Chain(h, p[k + 1..] + rest, hash[j := [p[k]] + hash[j]])
  {
    assert (p[k..] + rest)[0] == p[k] && (p[k..] + rest)[1..] == p[k + 1..] + rest;
  }

  lemma ChainEnd(h: Heap, strt: seq<seq<Id>>, hash: seq<seq<Id>>)
    requires |hash| > 0
    ensures Chain(h, AllStrings(strt[|strt|..]), hash) == hash
  {
  }

  lemma SizeOfTable(g: G)
    requires Inv(g)
    ensures |g.strt| > 0
  {
  }

  lemma CloseFirstInv(g: G, th: Id)
    requires Inv(g) && OpenUpvals(g.heap, th) != []
    ensures Inv(GcUpval.CloseFirst(g, th)) && IsThread(GcUpval.CloseFirst(g, th), th)
  {
    hide Inv;
    if g.phase == Propagate {
      CloseFirstMark(g, th);
      assert UpvalsLinked(g.heap, g.uvhead) by { InvParts(g); }
      CloseFirstIs(g, th);
    } else {
      CloseFirstSweep(g, th);
      CloseFirstFrame(g, th);
    }
    ClosedThread(g, th);
  }

  lemma ClosedThread(g: G, th: Id)
    requires Inv(g) && OpenUpvals(g.heap, th) != []
    ensures IsThread(GcUpval.CloseFirst(g, th), th)
  {
    hide Inv, GcUpval.LinkUpval;
    FirstOpenUpval(g, th);
    var uv := g.heap[th].body.openupval[0];
    var r := Unlink(g, th);
    if !Dead(g, uv) {
      LinkUpvalBodies(r.(heap := Rebody(r.heap, uv, Upval(Closed(UpvalValue(g.heap, g.heap[uv].body.loc))))), uv);
    }
  }

  lemma FirstOpenUpval(g: G, th: Id)
    requires Inv(g) && OpenUpvals(g.heap, th) != []
    ensures var uv := g.heap[th].body.openupval[0]; uv in g.heap && IsOpen(g.heap[uv].body) && uv != th
    ensures var uv := g.heap[th].body.openupval[0];
            var h := Rebody(g.heap, th, g.heap[th].body.(openupval := g.heap[th].body.openupval[1..]));
            UpvalValue(h, g.heap[uv].body.loc) == UpvalValue(g.heap, g.heap[uv].body.loc)
  {
    hide StringsLinked, RootLinked, Safe, Colored;
    InvParts(g);
    var l := g.heap[th].body.openupval;
    assert OpenList(g.heap, th, l, |g.heap[th].body.stack|);
    assert l[0] in l && OpenAt(g.heap, l[0], th);
  }

  lemma SweepStart(g: G, l: seq<Id>)
    ensures l[..0] == [] && Survivors(g, []) == [] && SweptHeap(g, []) == g.heap
            && KeepOpen(g, [], g.uvhead) == g.uvhead
  {
    KeepAllOpen(g, g.uvhead);
  }

  lemma SweepTurn(g: G, l: seq<Id>, j: nat)
    requires j < |l| && NoDup(l) && l[j] in g.heap && (IsOpen(g.heap[l[j]].body) || l[j] !in g.uvhead)
    ensures var x, h, d := l[j], SweptHeap(g, l[..j]), Dies(g, l[j]);
            && x in h && h[x] == g.heap[x]
            && (d <==> g.heap[x].color == White(!g.white) && !g.heap[x].fixed)
            && Survivors(g, l[..j + 1]) == Survivors(g, l[..j]) + (if d then [] else [x])
            && SweptHeap(g, l[..j + 1]) == (if d then h - {x} else Paint(h, x, White(g.white)))
            && KeepOpen(g, l[..j + 1], g.uvhead) ==
               (if d && IsOpen(g.heap[x].body) then Without(KeepOpen(g, l[..j], g.uvhead), x)
                else KeepOpen(g, l[..j], g.uvhead))
  {
    hide Survivors, SweptHeap, KeepOpen, Without;
    var x := l[j];
    assert l[..j + 1] == l[..j] + [x] && x !in l[..j];
    SurvivorsAppend(g, l[..j], x);
    SweptHeapAppend(g, l[..j], x);
    KeepOpenAppend(g, l[..j], x, g.uvhead);
    if !IsOpen(g.heap[x].body) { WithoutNothing(KeepOpen(g, l[..j], g.uvhead), x); }
  }

  lemma ThreadList(g: G, th: Id)
    requires Inv(g) && IsThread(g, th)
    ensures var l := g.heap[th].body.openupval;
            && NoDup(l) && th !in l && (forall x :: x in l ==> x in g.heap && IsOpen(g.heap[x].body))
            && th in SweptHeap(g, l) && SweptHeap(g, l)[th] == g.heap[th]
  {
    hide StringsLinked, RootLinked, Safe, Colored;
    InvParts(g);
    var l := g.heap[th].body.openupval;
    assert OpenList(g.heap, th, l, |g.heap[th].body.stack|);
    assert forall x :: x in l ==> OpenAt(g.heap, x, th);
    forall i, j | 0 <= i < j < |l|
      ensures l[i] != l[j]
    {
      assert Level(g.heap, l[i]) > Level(g.heap, l[j]);
    }
  }

  lemma TableSlots(g: Heap, h: Heap, t: Id)
    requires NoDangling(g) && h.Keys == g.Keys && t in g && g[t].body.Table? && h[t].body == g[t].body
    ensures forall x :: Sees(h, h[t].body, x) ==> x in h
  {
    forall x | Sees(h, h[t].body, x)
      ensures x in h
    {
      assert Refers(g, t, x);
    }
  }

  /** The states of `atomic` in which the gray list is traversed satisfy the tri-colour invariant. */
  lemma RestTri(g: G)
    requires Inv(g) && g.phase == Propagate && g.gray == []
    ensures forall uv :: uv in g.uvhead ==> uv in g.heap && g.heap[uv].body.Upval?
    ensures var a := GcAtomic.RemarkUpvals(g, g.uvhead);
            Tri(a, true, Elems(g.tmudata)) && NoDangling(a.heap) && a.tmudata == g.tmudata
    ensures var a := MarkAgain(WeakToGray(Stage1(g)));
            Tri(a, true, Elems(g.tmudata)) && NoDangling(a.heap) && a.tmudata == g.tmudata
    ensures var a := AgainToGray(Stage2(g));
            Tri(a, true, Elems(g.tmudata)) && NoDangling(a.heap) && a.tmudata == g.tmudata
  {
    hide Inv, Tri, NoDangling, Stage1, Stage2, GcAtomic.RemarkUpvals, AtomicDone, RemarkLeft, SameShape, KeepsMarks;
    HeadUpvals(g);
    InvNoDangling(g);
    InvTri(g);
    var todo := Elems(g.weak) + Elems(g.grayagain);
    RemarkKeeps(g, g.uvhead, Elems(g.tmudata), todo);
    Stage1Between(g);
    var s := Stage1(g);
    WeakToGrayKeeps(s, true, Elems(g.tmudata), todo);
    RootsAlive(g);
    RootsIn2(g, WeakToGray(s), set x | x in g.heap);
    MarkAgainBetween(g, WeakToGray(s), Elems(s.grayagain));
    Stage2Between(g);
    AgainToGrayKeeps(Stage2(g), true, Elems(g.tmudata), Elems(s.grayagain));
  }

  lemma HeadUpvals(g: G)
    requires Inv(g)
    ensures forall uv :: uv in g.uvhead ==> uv in g.heap && g.heap[uv].body.Upval?
  {
  }

  lemma FinishTri(g: G)
    requires Inv(g) && g.phase == Propagate && g.gray == []
    ensures var s := Stage3(g);
            s.main in s.rootgc && NoDup(s.rootgc)
                && forall u :: u in Behind(s.rootgc, s.main) ==> u in s.heap && s.heap[u].body.Userdata?
    ensures var s := Stage4(g);
            var a := MarkTmus(s, s.tmudata);
            && (forall u :: u in s.tmudata ==> u in s.heap) && a.tmudata == s.tmudata
            && Tri(a, true, Elems(s.tmudata)) && NoDangling(a.heap)
    ensures var s := Stage5(g);
            NoDangling(s.heap) && NoDup(s.weak) && forall t :: t in s.weak ==> t in s.heap && s.heap[t].body.Table?
  {
    hide Inv, Tri, NoDangling, Stage3, Stage4, AtomicDone, GcAtomic.PropagateAll, MarkTmus, Linked, TmuMarked;
    Stage3Linked(g);
    LinkedRoots(Stage3(g));
    Stage4Facts(g);
    var s := Stage4(g);
    TmudataLinked(s);
    MarkTmusKeeps(s, s.tmudata);
    Stage5Facts(s);
    WeakListNoDup(Stage5(g));
    forall t | t in Stage5(g).weak
      ensures t in Stage5(g).heap && Stage5(g).heap[t].body.Table?
    {
      WeakPending(Stage5(g), t);
    }
  }

  lemma LinkedRoots(s: G)
    requires Linked(s)
    ensures s.main in s.rootgc && NoDup(s.rootgc)
            && forall u :: u in Behind(s.rootgc, s.main) ==> u in s.heap && s.heap[u].body.Userdata?
  {
  }

  /** The tables of `l` from `i` on are as they were. */
  ghost predicate StillToClear(g: Heap, h: Heap, l: seq<Id>, i: nat) {
    && h.Keys == g.Keys && i <= |l|
    && (forall t :: t in l ==> t in h && h[t].body.Table?)
    && forall t :: t in l[i..] ==> h[t].body == g[t].body
  }

  lemma ClearStart(g: Heap, l: seq<Id>)
    requires forall t :: t in l ==> t in g && g[t].body.Table?
    ensures StillToClear(g, g, l, 0) && l[0..] == l
  {
  }

  lemma ClearNext(g: G, s: G, l: seq<Id>, i: nat)
    requires NoDangling(g.heap) && NoDup(l) && StillToClear(g.heap, s.heap, l, i) && i < |l|
    ensures l[i] in s.heap && s.heap[l[i]].body.Table? && forall x :: Sees(s.heap, s.heap[l[i]].body, x) ==> x in s.heap
    ensures var r := GcClear.ClearTable(s, l[i]);
            && r == s.(heap := r.heap) && StillToClear(g.heap, r.heap, l, i + 1)
            && GcClear.ClearTables(s, l[i..]) == GcClear.ClearTables(r, l[i + 1..])
  {
    hide NoDangling, Sees, GcClear.ClearTable;
    var t := l[i];
    assert t in l && t in l[i..] && l[i..][1..] == l[i + 1..];
    assert forall x :: x in l[i + 1..] ==> x in l[i..] && x in l && x != t;
    TableSlots(g.heap, s.heap, t);
    ClearTableKeeps(s, t);
    ClearTableTables(s, t);
  }

  lemma ClearTableTables(g: G, t: Id)
    requires t in g.heap && g.heap[t].body.Table?
    ensures GcClear.ClearTable(g, t).heap.Keys == g.heap.Keys && GcClear.ClearTable(g, t).heap[t].body.Table?
    ensures GcClear.ClearTable(g, t) == g.(heap := GcClear.ClearTable(g, t).heap)
  {
  }

  lemma PartlyStart(h: Heap, t: Id, b: Body)
    requires t in h && h[t].body == b
    ensures h == Partly(h, [], t, b)
  {
  }

  lemma PartlyBody(h: Heap, seen: seq<Value>, t: Id, b: Body)
    requires t in h
    ensures var r := Partly(h, seen, t, b);
            r.Keys == h.Keys && r[t].body == b && forall c :: Rebody(r, t, c) == Partly(h, seen, t, c)
  {
  }

  lemma PropagateFrame(g: G)
    requires HasGray(g)
    ensures var r := GcPropagate.PropagateMark(g);
            r == g.(heap := r.heap, gray := r.gray, grayagain := r.grayagain, weak := r.weak)
  {
  }

  lemma WhitesHas(h: Heap, o: Id)
    requires o in h && h[o].color.White?
    ensures o in Whites(h)
  {
  }

  /** After the traversal of a table. */
  ghost function TableDone(g: G, t: Id): G
    requires t in g.heap && g.heap[t].body.Table?
  {
    var b := g.heap[t].body;
    var m := GcMark.MarkAll(Mk(g), Children(b));
    var h := Rebody(m.heap, t, Traversed(b));
    if IsWeak(b) then g.(heap := Paint(h, t, Gray), gray := m.gray, weak := [t] + g.weak)
    else g.(heap := h, gray := m.gray)
  }

  lemma ResetIs(g: G)
    ensures Reset(g) ==
              if g.phase == Pause || g.phase == Propagate then
                g.(sweepstrgc := 0, sweepgc := 0, gray := [], grayagain := [], weak := [], phase := SweepString)
              else g
  {
  }

  lemma PropagateKinds(g: G)
    requires HasGray(g)
    ensures var o, b, r := g.gray[0], g.heap[g.gray[0]].body, GcPropagate.PropagateMark(g);
            var s := g.(gray := g.gray[1..], heap := Paint(g.heap, o, Black));
            var m := GcMark.MarkAll(Mk(s), Children(b));
            && (b.Table? ==> r == TableDone(s, o))
            && (b.Closure? ==> Children(b) == [b.env] + b.slots && r == Put(s, m))
            && (b.Proto? ==> Children(b) == b.slots && r == Put(s, m))
            && (b.Thread? ==>
                  && Children(b) == [b.gt] + b.stack
                  && var t := s.(heap := Paint(s.heap, o, Gray), grayagain := [o] + g.grayagain);
                  r == Put(t, GcMark.MarkAll(Mk(t), Children(b))))
  {
    hide GcMark.MarkAll, Traversed;
    var o := g.gray[0];
    if g.heap[o].body.Table? { WeakTraversal(g.heap, g.gray[1..], o, Gray); }
    assert Paint(Paint(g.heap, o, Black), o, Gray) == Paint(g.heap, o, Gray);
  }

  lemma MainStays(m: Marker, o: Id)
    requires o in m.heap
    ensures var a := GcMark.MarkValue(m, Ref(o)); o in a.heap && a.heap[o].body == m.heap[o].body
  {
    MarkValueBodies(m, Ref(o));
  }

  lemma MarkRootIs(g: G)
    requires g.main in g.heap && g.heap[g.main].body.Thread?
    ensures var s := g.(gray := [], grayagain := [], weak := []);
            GcCycle.MarkRoot(g) ==
              Put(s, GcMark.MarkAll(Mk(s), [Ref(g.main), g.heap[g.main].body.gt, g.registry] + g.mt))
              .(phase := Propagate)
  {
    hide GcMark.MarkAll;
  }

  lemma MarkThree(m: Marker, a: Value, b: Value, c: Value, vs: seq<Value>)
    ensures GcMark.MarkAll(m, [a, b, c] + vs) ==
              GcMark.MarkAll(GcMark.MarkValue(GcMark.MarkValue(GcMark.MarkValue(m, a), b), c), vs)
  {
    MarkAllConcat(m, [a, b, c], vs);
    assert [a, b, c][1..] == [b, c];
    MarkTwo(GcMark.MarkValue(m, a), b, c);
  }

  /** The root list while its userdata, `l`, are separated, the first `j` being done. */
  ghost function SplitRoots(g: G, l: seq<Id>, j: nat): seq<Id>
    requires g.main in g.rootgc && j <= |l|
  {
    g.rootgc[..IndexOf(g.rootgc, g.main) + 1] + Pick(g.heap, l[..j], false) + l[j..]
  }

  ghost function SplitState(g: G, l: seq<Id>, j: nat): G
    requires g.main in g.rootgc && j <= |l|
  {
    g.(heap := SetFinalized(g.heap, l[..j]), rootgc := SplitRoots(g, l, j),
       tmudata := g.tmudata + Pick(g.heap, l[..j], true))
  }

  lemma SeparateStart(g: G)
    requires g.main in g.rootgc && NoDup(g.rootgc)
    ensures var k, l := IndexOf(g.rootgc, g.main) + 1, Behind(g.rootgc, g.main);
            && k <= |g.rootgc| && |l| == |g.rootgc| - k && NoDup(l) && Pick(g.heap, l[..0], false) == []
            && SplitState(g, l, 0) == g && SplitState(g, l, |l|) == GcCycle.SeparateUdata(g)
  {
    hide *;
    var l := Behind(g.rootgc, g.main);
    SplitBehind(g.rootgc, g.main, []);
    SeparateEnds(g);
    SplitFirst(g, l);
    SplitLast(g);
  }

  lemma SplitFirst(g: G, l: seq<Id>)
    requires g.main in g.rootgc && SplitRoots(g, l, 0) == g.rootgc && SetFinalized(g.heap, l[..0]) == g.heap
    ensures SplitState(g, l, 0) == g && Pick(g.heap, l[..0], false) == []
  {
    hide SplitRoots, SetFinalized;
    assert Pick(g.heap, l[..0], true) == [] && g.tmudata + [] == g.tmudata;
  }

  lemma SplitLast(g: G)
    requires g.main in g.rootgc && var l := Behind(g.rootgc, g.main); l[..|l|] == l && l[|l|..] == []
    ensures var l := Behind(g.rootgc, g.main); SplitState(g, l, |l|) == GcCycle.SeparateUdata(g)
  {
    hide SetFinalized, IndexOf, Pick, Behind;
  }

  lemma SeparateEnds(g: G)
    requires g.main in g.rootgc
    ensures var k, l := IndexOf(g.rootgc, g.main) + 1, Behind(g.rootgc, g.main);
            SplitRoots(g, l, 0) == g.rootgc && l[..|l|] == l && l[|l|..] == [] && SetFinalized(g.heap, l[..0]) == g.heap
  {
    hide SetFinalized, IndexOf;
    var l := Behind(g.rootgc, g.main);
    NoneFinalized(g.heap, l);
    assert Pick(g.heap, l[..0], false) == [];
  }

  lemma NoneFinalized(h: Heap, l: seq<Id>)
    ensures SetFinalized(h, l[..0]) == h
  {
  }

  lemma SplitTurn(g: G, l: seq<Id>, j: nat)
    requires g.main in g.rootgc && j < |l| && NoDup(l) && l[j] in g.heap && g.heap[l[j]].body.Userdata?
    ensures var s, p, x := SplitState(g, l, j), IndexOf(g.rootgc, g.main) + 1 + |Pick(g.heap, l[..j], false)|, l[j];
            var b := g.heap[x].body;
            && p < |s.rootgc| && s.rootgc[p] == x && x in s.heap && s.heap[x] == g.heap[x]
            && SplitState(g, l, j + 1) ==
               (if !g.heap[x].color.White? || b.finalized then s
                else
                  var n := s.(heap := Rebody(s.heap, x, b.(finalized := true)));
                  if !b.hasgc then n else n.(rootgc := s.rootgc[..p] + s.rootgc[p + 1..], tmudata := s.tmudata + [x]))
            && |Pick(g.heap, l[..j + 1], false)| ==
                 |Pick(g.heap, l[..j], false)| + (if NeedsFinalizer(g.heap, x) then 0 else 1)
            && (NeedsFinalizer(g.heap, x) <==> g.heap[x].color.White? && !b.finalized && b.hasgc)
  {
    hide SetFinalized, Pick, NeedsFinalizer, SplitRoots, NoDup;
    SeparateTurn(g, l, j);
    RootsTurn(g, l, j);
    if !NeedsFinalizer(g.heap, l[j]) { assert SplitState(g, l, j).tmudata + [] == SplitState(g, l, j).tmudata; }
  }

  lemma RootsTurn(g: G, l: seq<Id>, j: nat)
    requires g.main in g.rootgc && j < |l|
    requires Pick(g.heap, l[..j + 1], false) ==
               Pick(g.heap, l[..j], false) + (if NeedsFinalizer(g.heap, l[j]) then [] else [l[j]])
    ensures var s, p := SplitRoots(g, l, j), IndexOf(g.rootgc, g.main) + 1 + |Pick(g.heap, l[..j], false)|;
            && p < |s| && s[p] == l[j]
            && SplitRoots(g, l, j + 1) == if NeedsFinalizer(g.heap, l[j]) then s[..p] + s[p + 1..] else s
  {
    hide NeedsFinalizer, Pick, IndexOf;
    assert l[j..] == [l[j]] + l[j + 1..];
    TakeOut(g.rootgc[..IndexOf(g.rootgc, g.main) + 1], Pick(g.heap, l[..j], false), l[j], l[j + 1..]);
  }

  lemma TakeOut(root: seq<Id>, picked: seq<Id>, x: Id, rest: seq<Id>)
    ensures var s, p := root + picked + ([x] + rest), |root| + |picked|;
            && p < |s| && s[p] == x && s[..p] + s[p + 1..] == root + picked + rest
            && root + (picked + [x]) + rest == s && root + (picked + []) + rest == root + picked + rest
  {
    var s, p := root + picked + ([x] + rest), |root| + |picked|;
    assert s[..p] == root + picked && s[p + 1..] == rest;
    assert picked + [] == picked;
  }

  lemma SeparateTurn(g: G, l: seq<Id>, j: nat)
    requires j < |l| && NoDup(l) && l[j] in g.heap && g.heap[l[j]].body.Userdata?
    ensures var x, r := l[j], SetFinalized(g.heap, l[..j]);
            var b := g.heap[x].body;
            && x in r && r[x] == g.heap[x]
            && (NeedsFinalizer(g.heap, x) <==> g.heap[x].color.White? && !b.finalized && b.hasgc)
            && SetFinalized(g.heap, l[..j + 1]) ==
                 (if g.heap[x].color.White? && !b.finalized then Rebody(r, x, b.(finalized := true)) else r)
            && Pick(g.heap, l[..j + 1], false) ==
                 Pick(g.heap, l[..j], false) + (if NeedsFinalizer(g.heap, x) then [] else [x])
            && Pick(g.heap, l[..j + 1], true) ==
                 Pick(g.heap, l[..j], true) + (if NeedsFinalizer(g.heap, x) then [x] else [])
  {
    hide Pick, SetFinalized;
    var x := l[j];
    assert l[..j + 1] == l[..j] + [x];
    assert x !in l[..j];
    SetFinalizedAppend(g.heap, l[..j], x);
    PickAppend(g.heap, l[..j], x, false);
    PickAppend(g.heap, l[..j], x, true);
  }

  lemma NoSlots(arr: seq<Value>, m: Marker)
    ensures arr[..|arr|] == arr && GcMark.MarkAll(m, Backwards(arr[..0])) == m
  {
  }

  lemma NoNodes(nodes: seq<Node>, m: Marker, mode: Mode)
    ensures Visited(nodes, |nodes|) == nodes && Visited(nodes, 0) == RemoveEmpty(nodes)
    ensures nodes[..|nodes|] == nodes && GcMark.MarkAll(m, NodeMarks(nodes[..0], mode)) == m
  {
  }
}
