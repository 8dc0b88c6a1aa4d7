/** What each operation of the program does to what the program sees. */
module GcEffects {
  import opened GcState
  import opened GcLists
  import opened GcMark
  import opened GcPropagate
  import opened GcInvariant
  import opened GcUpval
  import opened GcClose
  import opened GcSweep
  import opened GcMutator
  import opened GcFull

  // Closing

  predicate OpenIn(h: Heap, uv: Id, th: Id, level: nat) {
    uv in h && IsOpen(h[uv].body) && h[uv].body.loc.th == th && h[uv].body.loc.level >= level
  }

  /**
    Just the upvalues of the thread at the level and above were closed, each with the value of its slot, or freed if
    they were dead; no other object, value or slot changed.
   */
  ghost predicate ClosedFrom(g: G, r: G, th: Id, level: nat) {
    && r.white == g.white
    && (forall uv :: OpenIn(g.heap, uv, th, level) ==>
          && (uv in r.heap ==> r.heap[uv].body == Upval(Closed(UpvalValue(g.heap, g.heap[uv].body.loc))))
          && (!Dead(g, uv) ==> uv in r.heap))
    && (forall o :: o in g.heap && !OpenIn(g.heap, o, th, level) ==>
          o in r.heap && if o == th && g.heap[o].body.Thread?
                         then r.heap[o].body == g.heap[o].body.(openupval := OpenUpvals(r.heap, o))
                         else r.heap[o].body == g.heap[o].body)
    && (forall o :: o in r.heap ==> o in g.heap)
  }

  lemma CloseFirstContents(g: G, th: Id)
    requires Inv(g) && OpenUpvals(g.heap, th) != []
    ensures var uv, r := g.heap[th].body.openupval[0], CloseFirst(g, th);
            && Inv(r) && ClosedContents(g.heap, r.heap, th, uv) && r.white == g.white && r.phase == g.phase
            && (!Dead(g, uv) ==> uv in r.heap) && g.heap[uv].body.loc.th == th
            && forall o :: o in g.heap && o != uv && !Dead(g, o) ==> !Dead(r, o)
  {
    hide Linked, Safe, Colored, CloseFirst, Tri, NoDangling, ClosedContents, UpvalsLinked;
    var uv := g.heap[th].body.openupval[0];
    assert UpvalsLinked(g.heap, g.uvhead) by { InvParts(g); }
    FirstOpen(g, th);
    if g.phase == Propagate {
      MarkPhaseFacts(g);
      CloseTri(g, th);
      CloseFirstMark(g, th);
      MarkPhaseFacts(CloseFirst(g, th));
    } else {
      CloseFirstSweeps(g, th);
      CloseFirstSweep(g, th);
    }
  }

  /** The first upvalue has the highest level, so none is left where the loop stops. */
  lemma NoneAbove(g: G, th: Id, level: nat)
    requires Inv(g)
    requires OpenUpvals(g.heap, th) == [] || Level(g.heap, OpenUpvals(g.heap, th)[0]) < level
    ensures forall uv :: !OpenIn(g.heap, uv, th, level)
  {
    hide Linked, Safe, Colored, StringsLinked, RootLinked;
    InvParts(g);
    var l := OpenUpvals(g.heap, th);
    forall i | 0 <= i < |l|
      ensures Level(g.heap, l[i]) < level
    {
      assert OpenList(g.heap, th, l, |g.heap[th].body.stack|);
    }
  }

  lemma ClosedStep(g: G, n: G, r: G, th: Id, level: nat, uv: Id)
    requires ClosedContents(g.heap, n.heap, th, uv) && n.white == g.white && OpenIn(g.heap, uv, th, level)
    requires (!Dead(g, uv) ==> uv in n.heap) && forall o :: o in g.heap && o != uv && !Dead(g, o) ==> !Dead(n, o)
    requires ClosedFrom(n, r, th, level) && OpenUpvals(n.heap, th) == OpenUpvals(g.heap, th)[1..]
    ensures ClosedFrom(g, r, th, level)
  {
    hide UpvalValue;
    forall x | OpenIn(g.heap, x, th, level)
      ensures x in r.heap ==> r.heap[x].body == Upval(Closed(UpvalValue(g.heap, g.heap[x].body.loc)))
      ensures !Dead(g, x) ==> x in r.heap
    {
      if x == uv {
        if uv in n.heap { assert !OpenIn(n.heap, uv, th, level); }
      } else {
        assert OpenIn(n.heap, x, th, level);
        CloseUpvalValues(g.heap, n.heap, th, uv, g.heap[x].body.loc);
      }
    }
    forall o | o in g.heap && !OpenIn(g.heap, o, th, level)
      ensures o in r.heap
    {
      assert o != uv && o in n.heap && !OpenIn(n.heap, o, th, level);
    }
  }

  /** What `luaF_close` does, in every phase. */
  lemma {:induction false} CloseExact(g: G, th: Id, level: nat)
    requires Inv(g)
    ensures ClosedFrom(g, Close(g, th, level), th, level)
    ensures forall uv :: !OpenIn(Close(g, th, level).heap, uv, th, level)
    decreases |OpenUpvals(g.heap, th)|
  {
    hide Inv, CloseFirst, ClosedContents, ClosedFrom;
    var l := OpenUpvals(g.heap, th);
    if l != [] && Level(g.heap, l[0]) >= level {
      var n := CloseFirst(g, th);
      CloseFirstContents(g, th);
      CloseFirstShrinks(g, th);
      CloseExact(n, th, level);
      FirstIsOpen(g, n, th, level);
      ClosedStep(g, n, Close(n, th, level), th, level, l[0]);
    } else {
      NoneAbove(g, th, level);
      ClosedNothing(g, th, level);
    }
  }

  lemma FirstIsOpen(g: G, n: G, th: Id, level: nat)
    requires OpenUpvals(g.heap, th) != [] && ClosedContents(g.heap, n.heap, th, OpenUpvals(g.heap, th)[0])
    requires g.heap[OpenUpvals(g.heap, th)[0]].body.loc.th == th && Level(g.heap, OpenUpvals(g.heap, th)[0]) >= level
    ensures OpenIn(g.heap, OpenUpvals(g.heap, th)[0], th, level)
    ensures OpenUpvals(n.heap, th) == OpenUpvals(g.heap, th)[1..]
  {
  }

  lemma ClosedNothing(g: G, th: Id, level: nat)
    requires forall uv :: !OpenIn(g.heap, uv, th, level)
    ensures ClosedFrom(g, g, th, level)
  {
  }

  // Finding

  /** The upvalue is that of the slot, alive, and was there before or is new because none was; the program gets it. */
  ghost predicate FoundAt(g: G, r: G, th: Id, level: nat, id: Id, uv: Id) {
    && uv in r.heap && r.heap[uv].body == Upval(Open(th, level)) && !Dead(r, uv)
    && (uv in g.heap ==> g.heap[uv].body == Upval(Open(th, level)))
    && (uv !in g.heap ==> uv == id && forall x :: x in g.heap ==> g.heap[x].body != Upval(Open(th, level)))
    && (forall x :: x in g.heap && !g.heap[x].body.Thread? ==> x in r.heap && r.heap[x].body == g.heap[x].body)
    && (IsThread(g, g.cur) ==> IsThread(r, g.cur) && Ref(uv) in r.heap[g.cur].body.stack)
  }

  lemma PushedAt(g: G, s: G, th: Id, level: nat, id: Id, uv: Id)
    requires uv in s.heap && s.heap[uv].body == Upval(Open(th, level)) && !Dead(s, uv) && s.cur == g.cur
    requires uv in g.heap ==> g.heap[uv].body == Upval(Open(th, level))
    requires uv !in g.heap ==> uv == id && forall x :: x in g.heap ==> g.heap[x].body != Upval(Open(th, level))
    requires forall x :: x in g.heap && !g.heap[x].body.Thread? ==> x in s.heap && s.heap[x].body == g.heap[x].body
    requires IsThread(g, g.cur) ==> IsThread(s, g.cur)
    ensures FoundAt(g, PushValue(s, Ref(uv)), th, level, id, uv)
  {
  }

  lemma FindingIs(g: G, th: Id, level: nat, id: Id)
    requires IsThread(g, th)
    ensures var l := g.heap[th].body.openupval;
            var i := Place(g.heap, l, level);
            Apply(g, FindUpval(th, level, id)) ==
              if i < |l| && l[i] in g.heap && Level(g.heap, l[i]) == level then PushValue(Resurrect(g, l[i]), Ref(l[i]))
              else
                var h := g.heap[id := Obj(White(g.white), false, Upval(Open(th, level)))];
                PushValue(g.(heap := Rebody(h, th, g.heap[th].body.(openupval := Insert(l, i, id))),
                             uvhead := [id] + g.uvhead), Ref(id))
  {
    hide Place, Insert, PushValue, Level, Resurrect;
  }

  /** No open upvalue has the level where the search stops below it. */
  lemma NotFound(g: G, th: Id, level: nat)
    requires UpvalsLinked(g.heap, g.uvhead) && IsThread(g, th)
    requires var l := g.heap[th].body.openupval;
             var i := Place(g.heap, l, level);
             i == |l| || Level(g.heap, l[i]) != level
    ensures forall x :: x in g.heap ==> g.heap[x].body != Upval(Open(th, level))
  {
    hide Place;
    var l := g.heap[th].body.openupval;
    assert OpenList(g.heap, th, l, |g.heap[th].body.stack|);
    forall k | 0 <= k < |l|
      ensures Level(g.heap, l[k]) != level
    {
      var i := Place(g.heap, l, level);
      if i < k { assert Level(g.heap, l[i]) > Level(g.heap, l[k]); }
    }
  }

  lemma OpenThere(g: G, th: Id, i: nat)
    requires UpvalsLinked(g.heap, g.uvhead) && IsThread(g, th) && i < |g.heap[th].body.openupval|
    ensures OpenAt(g.heap, g.heap[th].body.openupval[i], th)
  {
    var l := g.heap[th].body.openupval;
    assert OpenList(g.heap, th, l, |g.heap[th].body.stack|);
    assert l[i] in l;
  }

  /** What `luaF_findupval` finds, or makes. */
  lemma FindUpvalExact(g: G, th: Id, level: nat, id: Id)
    requires Inv(g) && Enabled(g, FindUpval(th, level, id))
    ensures exists uv :: FoundAt(g, Apply(g, FindUpval(th, level, id)), th, level, id, uv)
  {
    hide Linked, Safe, Colored, StringsLinked, RootLinked, UpvalsLinked;
    hide Reachable, Insert, PushValue, Place, Apply, FoundAt;
    InvParts(g);
    var l := g.heap[th].body.openupval;
    var i := Place(g.heap, l, level);
    FindingIs(g, th, level, id);
    if i < |l| && Level(g.heap, l[i]) == level {
      OpenThere(g, th, i);
      PushedAt(g, Resurrect(g, l[i]), th, level, id, l[i]);
    } else {
      NotFound(g, th, level);
      if i < |l| { OpenThere(g, th, i); }
      var h := g.heap[id := Obj(White(g.white), false, Upval(Open(th, level)))];
      var s := g.(heap := Rebody(h, th, g.heap[th].body.(openupval := Insert(l, i, id))), uvhead := [id] + g.uvhead);
      PushedAt(g, s, th, level, id, id);
    }
  }

  // Every operation

  ghost predicate SameBodies(h: Heap, r: Heap, except: set<Id>) {
    forall o :: o in h && o !in except ==> o in r && r[o].body == h[o].body
  }

  /** The running thread gets the value on its stack. */
  ghost predicate Gets(g: G, r: G, v: Value) {
    IsThread(g, g.cur) ==>
      && IsThread(r, g.cur)
      && r.heap[g.cur].body == g.heap[g.cur].body.(stack := g.heap[g.cur].body.stack + [v])
  }

  /** The string is alive, and was there before or is new because none with its text was. */
  ghost predicate Interned(g: G, r: G, id: Id, text: seq<bv8>, o: Id) {
    && o in r.heap && r.heap[o].body == String(text) && !Dead(r, o)
    && (o in g.heap ==> g.heap[o].body == String(text))
    && (o !in g.heap ==> o == id && forall x :: x in g.heap ==> g.heap[x].body != String(text))
    && SameBodies(g.heap, r.heap, {g.cur}) && Gets(g, r, Ref(o))
  }

  ghost predicate Does(g: G, op: Op, r: G) {
    match op
    case New(id, body) =>
      && id in r.heap && r.heap[id] == Obj(White(g.white), false, body) && id in r.rootgc
      && SameBodies(g.heap, r.heap, {g.cur}) && Gets(g, r, Ref(id))
    case Intern(id, text) => exists o :: Interned(g, r, id, text, o)
    case Write(o, body, _) => o in r.heap && r.heap[o].body == body && SameBodies(g.heap, r.heap, {o})
    case SetStack(th, gt, stack) =>
      && IsThread(g, th) && IsThread(r, th) && SameBodies(g.heap, r.heap, {th})
      && r.heap[th].body == g.heap[th].body.(gt := gt, stack := stack)
    case SetUpval(uv, v) =>
      && uv in g.heap && IsOpen(g.heap[uv].body)
      && var th, level := g.heap[uv].body.loc.th, g.heap[uv].body.loc.level;
         && IsThread(g, th) && IsThread(r, th) && level < |g.heap[th].body.stack| && SameBodies(g.heap, r.heap, {th})
         && r.heap[th].body == g.heap[th].body.(stack := g.heap[th].body.stack[level := v])
    case FindUpval(th, level, id) => exists uv :: FoundAt(g, r, th, level, id, uv)
    case CloseUpvals(th, level) => ClosedFrom(g, r, th, level) && forall uv :: !OpenIn(r.heap, uv, th, level)
    case SetBasicMetatable(i, v) => i < |g.mt| && r == g.(mt := g.mt[i := v])
    case Resume(th) => r == g.(cur := th)
    case FixString(o) =>
      o in g.heap && o in r.heap && r.heap[o] == g.heap[o].(fixed := true) && r == g.(heap := g.heap[o := r.heap[o]])
    case ResizeStrings(size) => if g.phase == SweepString then r == g else r == g.(strt := r.strt) && |r.strt| == size
  }

  lemma PushGets(g: G, s: G, v: Value)
    requires s.cur == g.cur && SameBodies(g.heap, s.heap, {})
    ensures var r := PushValue(s, v);
            SameBodies(g.heap, r.heap, {g.cur}) && Gets(g, r, v) && r.heap.Keys == s.heap.Keys
            && (forall o :: o in s.heap ==> r.heap[o].color == s.heap[o].color)
            && (forall o :: o in s.heap && o != s.cur ==> r.heap[o] == s.heap[o])
            && r == s.(heap := r.heap)
  {
  }

  lemma NewDoes(g: G, id: Id, body: Body)
    requires Inv(g) && Enabled(g, New(id, body))
    ensures Does(g, New(id, body), Apply(g, New(id, body)))
  {
    hide Reachable, IndexOf, Linked, Safe, Colored, PushValue;
    var s := Link(g, id, body);
    assert s.heap == g.heap[id := Obj(White(g.white), false, body)] && s.cur == g.cur && id in s.rootgc;
    assert SameBodies(g.heap, s.heap, {});
    PushGets(g, s, Ref(id));
    assert g.cur in g.heap && id != g.cur;
  }

  lemma InternDoes(g: G, id: Id, text: seq<bv8>)
    requires Inv(g) && Enabled(g, Intern(id, text))
    ensures Does(g, Intern(id, text), Apply(g, Intern(id, text)))
  {
    hide Linked, Safe, Colored, UpvalsLinked, RootLinked, Bucket, PushValue, FindText, Gets, SameBodies;
    InvParts(g);
    var j := Bucket(text, |g.strt|);
    var found := FindText(g.heap, g.strt[j], text);
    if found != [] {
      var o := found[0];
      var s := Resurrect(g, o);
      BodiesKept(g.heap, s.heap);
      PushGets(g, s, Ref(o));
      assert o != g.cur;
      assert Interned(g, PushValue(s, Ref(o)), id, text, o);
    } else {
      var s := g.(heap := g.heap[id := Obj(White(g.white), false, String(text))],
                  strt := g.strt[j := [id] + g.strt[j]]);
      BodiesKept(g.heap, s.heap);
      PushGets(g, s, Ref(id));
      assert forall x :: x in g.heap && g.heap[x].body == String(text) ==> x in g.strt[j];
      assert Interned(g, PushValue(s, Ref(id)), id, text, id);
    }
  }

  lemma BodiesKept(h: Heap, r: Heap)
    requires forall o :: o in h ==> o in r && r[o].body == h[o].body
    ensures SameBodies(h, r, {})
  {
  }

  lemma BarrierBodies(g: G, o: Id, v: Value)
    requires o in g.heap
    ensures SameButColor(g.heap, Barrier(g, o, v).heap) && SameButColor(g.heap, BarrierBack(g, o, v).heap)
  {
    hide BarrierForward;
    if IsWhite(g, v) && g.heap[o].color == Black { BarrierForwardBodies(g, o, v.id); }
  }

  lemma WriteDoes(g: G, o: Id, body: Body, v: Value)
    requires o in g.heap
    ensures Does(g, Write(o, body, v), Apply(g, Write(o, body, v)))
  {
    hide Barrier, BarrierBack;
    BarrierBodies(g.(heap := Rebody(g.heap, o, body)), o, v);
  }

  lemma SetUpvalDoes(g: G, uv: Id, v: Value)
    requires Inv(g) && Enabled(g, SetUpval(uv, v))
    ensures Does(g, SetUpval(uv, v), Apply(g, SetUpval(uv, v)))
  {
    hide Linked, Safe, Colored, StringsLinked, RootLinked, Reachable, Barrier, Usable;
    InvParts(g);
    var th, level := g.heap[uv].body.loc.th, g.heap[uv].body.loc.level;
    var l := g.heap[th].body.openupval;
    assert OpenList(g.heap, th, l, |g.heap[th].body.stack|);
    var s := g.(heap := Rebody(g.heap, th, g.heap[th].body.(stack := g.heap[th].body.stack[level := v])));
    BarrierBodies(s, uv, v);
  }

  /** After every operation the program sees just the change that it asked for. */
  lemma OperationExact(g: G, op: Op)
    requires Inv(g) && Enabled(g, op)
    ensures Does(g, op, Apply(g, op))
  {
    hide Inv, Reachable, Close, PushValue, Link, InternString, FindOpen, Barrier, BarrierBack, ClosedFrom, FoundAt;
    hide OpenIn, Gets, Interned;
    match op
    case New(id, body) => NewDoes(g, id, body);
    case Intern(id, text) => InternDoes(g, id, text);
    case Write(o, body, v) => WriteDoes(g, o, body, v);
    case SetUpval(uv, v) => SetUpvalDoes(g, uv, v);
    case FindUpval(th, level, id) => FindUpvalExact(g, th, level, id);
    case CloseUpvals(th, level) => CloseExact(g, th, level);
    case _ =>
  }

  // Finalizers

  /** The next finalizer is that of the first userdata that waits: it is on the stack, and in the root list again. */
  lemma FinalizerTakes(g: G)
    requires Inv(g) && g.phase == Finalize && g.tmudata != []
    ensures var u, r := g.tmudata[0], Step(g);
            && r.tmudata == g.tmudata[1..] && r.phase == Finalize && Gets(g, r, Ref(u))
            && u in r.heap && r.heap[u].color == White(g.white)
            && u in r.rootgc && g.main in g.rootgc && r.rootgc == Insert(g.rootgc, IndexOf(g.rootgc, g.main) + 1, u)
  {
    hide Safe, Colored, StringsLinked, UpvalsLinked, RootLinked, Insert, IndexOf, PushValue, TakeUdata;
    InvParts(g);
    TmudataHead(g);
    TakeUdataIs(g);
    var s := TakeUdata(g);
    assert SingleStep(g) == s;
    BodiesKept(g.heap, s.heap);
    PushGets(g, s, Ref(g.tmudata[0]));
    InsertHas(g.rootgc, IndexOf(g.rootgc, g.main) + 1, g.tmudata[0]);
  }

  lemma InsertHas(l: seq<Id>, k: nat, x: Id)
    requires k <= |l|
    ensures x in Insert(l, k, x)
  {
    assert Insert(l, k, x)[k] == x;
  }
}
