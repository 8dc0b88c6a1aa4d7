/** Write barriers, new objects, and the open upvalues of `lfunc.c`. */
module GcUpval {
  import opened GcState
  import opened GcLists
  import opened GcMark
  import opened GcPropagate
  import opened GcInvariant

  /** Link an object into the root list before position `k`; the sweep pointer stays on its link. */
  function InsertAt(g: G, k: nat, o: Id): G
    requires k <= |g.rootgc|
  {
    g.(rootgc := Insert(g.rootgc, k, o), sweepgc := if g.sweepgc > k then g.sweepgc + 1 else g.sweepgc)
  }

  predicate IsWhite(g: G, v: Value) {
    v.Ref? && v.id in g.heap && g.heap[v.id].color.White?
  }

  /** `luaC_barrierf`: mark the new value, or whiten the object when no marking is under way. */
  function BarrierForward(g: G, o: Id, v: Id): G
    requires o in g.heap && v in g.heap && g.heap[v].color.White?
  {
    if g.phase == Propagate then Put(g, ReallyMark(Mk(g), v))
    else g.(heap := Paint(g.heap, o, White(g.white)))
  }

  /** `luaC_barrier` and `luaC_objbarrier`. */
  function Barrier(g: G, o: Id, v: Value): G
    requires o in g.heap
  {
    if IsWhite(g, v) && g.heap[o].color == Black then BarrierForward(g, o, v.id) else g
  }

  /** `luaC_barriert` and `luaC_objbarriert`: a black table turns gray again. */
  function BarrierBack(g: G, t: Id, v: Value): G
    requires t in g.heap
  {
    if IsWhite(g, v) && g.heap[t].color == Black then
      g.(heap := Paint(g.heap, t, Gray), grayagain := [t] + g.grayagain)
    else g
  }

  /** `luaC_linkupval`. */
  function LinkUpval(g: G, uv: Id): G
    requires uv in g.heap && g.heap[uv].body.Upval?
  {
    var r := InsertAt(g, 0, uv);
    if g.heap[uv].color != Gray then r
    else if g.phase == Propagate then
      Barrier(r.(heap := Paint(r.heap, uv, Black)), uv, UpvalValue(g.heap, g.heap[uv].body.loc))
    else r.(heap := Paint(r.heap, uv, White(g.white)))
  }

  function OpenUpvals(h: Heap, th: Id): seq<Id> {
    if th in h && h[th].body.Thread? then h[th].body.openupval else []
  }

  /** Take the first open upvalue off its thread's list and off the list of all open upvalues. */
  function Unlink(g: G, th: Id): G
    requires th in g.heap && g.heap[th].body.Thread? && g.heap[th].body.openupval != []
  {
    var l := g.heap[th].body.openupval;
    g.(heap := Rebody(g.heap, th, g.heap[th].body.(openupval := l[1..])), uvhead := Without(g.uvhead, l[0]))
  }

  /** One turn of the loop of `luaF_close`: a dead upvalue is freed, any other is closed. */
  function CloseFirst(g: G, th: Id): G
    requires th in g.heap && g.heap[th].body.Thread? && g.heap[th].body.openupval != []
  {
    var uv := g.heap[th].body.openupval[0];
    var r := Unlink(g, th);
    if !(uv in g.heap && g.heap[uv].body.Upval?) || uv == th then r
    else if Dead(g, uv) then r.(heap := r.heap - {uv})
    else LinkUpval(r.(heap := Rebody(r.heap, uv, Upval(Closed(UpvalValue(g.heap, g.heap[uv].body.loc))))), uv)
  }

  /** `luaF_close`: close the thread's upvalues at `level` and above. */
  function Close(g: G, th: Id, level: nat): G
    decreases |OpenUpvals(g.heap, th)|
  {
    var l := OpenUpvals(g.heap, th);
    if l != [] && Level(g.heap, l[0]) >= level then
      CloseFirstShrinks(g, th);
      Close(CloseFirst(g, th), th, level)
    else g
  }

  lemma CloseFirstShrinks(g: G, th: Id)
    requires OpenUpvals(g.heap, th) != []
    ensures |OpenUpvals(CloseFirst(g, th).heap, th)| < |OpenUpvals(g.heap, th)|
  {
    var uv := g.heap[th].body.openupval[0];
    var r := Unlink(g, th);
    if uv in g.heap && g.heap[uv].body.Upval? && uv != th && !Dead(g, uv) {
      var c := r.(heap := Rebody(r.heap, uv, Upval(Closed(UpvalValue(g.heap, g.heap[uv].body.loc)))));
      LinkUpvalBodies(c, uv);
    }
  }

  lemma BarrierForwardBodies(g: G, o: Id, v: Id)
    requires o in g.heap && v in g.heap && g.heap[v].color.White?
    ensures SameButColor(g.heap, BarrierForward(g, o, v).heap)
  {
    if g.phase == Propagate { ReallyMarkBodies(Mk(g), v); }
  }

  lemma {:induction false} ReallyMarkBodies(m: Marker, o: Id)
    requires o in m.heap && m.heap[o].color.White?
    ensures SameButColor(m.heap, ReallyMark(m, o).heap)
    decreases Whites(m.heap), 0, 1
  {
    hide UpvalValue, MarkValue;
    PaintShrinksWhites(m.heap, o, Black);
    match m.heap[o].body
    case Userdata(meta, env, _, _) => MarkAllBodies(m.(heap := Paint(m.heap, o, Black)), [meta, env]);
    case Upval(loc) => MarkUpvalBodies(m, o, loc);
    case _ =>
  }

  lemma {:induction false} MarkUpvalBodies(m: Marker, o: Id, loc: Loc)
    requires o in m.heap && m.heap[o].color.White? && m.heap[o].body == Upval(loc)
    ensures SameButColor(m.heap, ReallyMark(m, o).heap)
    decreases Whites(m.heap), 0, 0
  {
    hide UpvalValue;
    PaintShrinksWhites(m.heap, o, Gray);
    MarkValueBodies(m.(heap := Paint(m.heap, o, Gray)), UpvalValue(m.heap, loc));
  }

  lemma {:induction false} MarkValueBodies(m: Marker, v: Value)
    ensures SameButColor(m.heap, MarkValue(m, v).heap)
    decreases Whites(m.heap), 1, 0
  {
    if v.Ref? && v.id in m.heap && m.heap[v.id].color.White? { ReallyMarkBodies(m, v.id); }
  }

  lemma {:induction false} MarkAllBodies(m: Marker, vs: seq<Value>)
    ensures SameButColor(m.heap, MarkAll(m, vs).heap)
    decreases Whites(m.heap), 2, |vs|
  {
    if vs != [] {
      MarkValueBodies(m, vs[0]);
      MarkAllBodies(MarkValue(m, vs[0]), vs[1..]);
    }
  }

  lemma LinkUpvalBodies(g: G, uv: Id)
    requires uv in g.heap && g.heap[uv].body.Upval?
    ensures SameButColor(g.heap, LinkUpval(g, uv).heap)
  {
    hide UpvalValue, Insert, BarrierForward, SameButColor;
    var v := UpvalValue(g.heap, g.heap[uv].body.loc);
    var p := InsertAt(g, 0, uv).(heap := Paint(g.heap, uv, Black));
    PaintBodies(g.heap, uv, Black);
    PaintBodies(g.heap, uv, White(g.white));
    if IsWhite(p, v) {
      BarrierForwardBodies(p, uv, v.id);
      BodiesTransitive(g.heap, p.heap, BarrierForward(p, uv, v.id).heap);
    }
  }

  lemma PaintBodies(h: Heap, o: Id, c: Color)
    requires o in h
    ensures SameButColor(h, h) && SameButColor(h, Paint(h, o, c))
  {
  }

  lemma BodiesTransitive(a: Heap, b: Heap, c: Heap)
    requires SameButColor(a, b) && SameButColor(b, c)
    ensures SameButColor(a, c)
  {
  }

  // Links

  lemma RootInsertOrder(h: Heap, h': Heap, rootgc: seq<Id>, tmudata: seq<Id>, main: Id, k: nat, o: Id)
    requires RootOrder(h, rootgc, tmudata, main)
    requires k == 0 || (k == IndexOf(rootgc, main) + 1 && o in h' && h'[o].body.Userdata?)
    requires o !in rootgc
    requires forall x :: x != o && x in h && h[x].body.Userdata? ==> x in h' && h'[x].body.Userdata?
    ensures RootOrder(h', Insert(rootgc, k, o), tmudata, main)
  {
    hide NoDup, Behind, Insert, IndexOf;
    BehindElems(rootgc, main);
    InsertElems(rootgc, k, o);
    InsertBehind(rootgc, k, o, main);
  }

  lemma RootInsertCover(h: Heap, h': Heap, rootgc: seq<Id>, root: seq<Id>, tmudata: seq<Id>, main: Id, o: Id)
    requires RootCover(h, rootgc, tmudata, main)
    requires o !in tmudata && o in h' && !h'[o].fixed && !h'[o].body.String? && !IsOpen(h'[o].body) && o != main
    requires forall x :: x in root <==> x in rootgc || x == o
    requires forall x :: x != o ==> (x in h' <==> x in h)
    requires forall x :: x != o && x in h ==> h'[x].fixed == h[x].fixed
    requires forall x :: x != o && x in h ==> h'[x].body == h[x].body || (h[x].body.Thread? && h'[x].body.Thread?)
    ensures RootCover(h', root, tmudata, main)
  {
  }

  /** A new element before the main thread, or userdata just behind it, leaves the list well linked. */
  lemma RootInsert(h: Heap, h': Heap, rootgc: seq<Id>, tmudata: seq<Id>, main: Id, k: nat, o: Id)
    requires RootLinked(h, rootgc, tmudata, main)
    requires k == 0 || (k == IndexOf(rootgc, main) + 1 && o in h' && h'[o].body.Userdata?)
    requires o !in rootgc && o !in tmudata && o in h' && !h'[o].fixed && !h'[o].body.String? && !IsOpen(h'[o].body)
    requires forall x :: x != o ==> (x in h' <==> x in h)
    requires forall x :: x != o && x in h ==> h'[x].fixed == h[x].fixed
    requires forall x :: x != o && x in h ==> h'[x].body == h[x].body || (h[x].body.Thread? && h'[x].body.Thread?)
    ensures RootLinked(h', Insert(rootgc, k, o), tmudata, main)
  {
    hide NoDup, Behind, Insert, IndexOf, RootOrder, RootCover;
    RootParts(h, rootgc, tmudata, main);
    InsertElems(rootgc, k, o);
    RootInsertOrder(h, h', rootgc, tmudata, main, k, o);
    RootInsertCover(h, h', rootgc, Insert(rootgc, k, o), tmudata, main, o);
  }
}
