/** What a running program may do to the heap between two collector steps. */
module GcMutator {
  import opened GcState
  import opened GcLists
  import opened GcMark
  import opened GcPropagate
  import opened GcInvariant
  import opened GcUpval
  import opened GcCycle
  import opened GcSweep

  /**
    Operations of the program. Results are left on the stack of the running thread.
    `New` is `luaC_link` (or `luaS_newudata`); `Intern` is `luaS_newlstr`; `Write` is a store into
    an object, followed by the barrier that goes with the object's kind.
   */
  datatype Op =
    | New(id: Id, body: Body)
    | Intern(id: Id, text: seq<bv8>)
    | Write(o: Id, body: Body, v: Value)
    | SetStack(th: Id, gt: Value, stack: seq<Value>)
    | SetUpval(uv: Id, v: Value)
    | FindUpval(th: Id, level: nat, id: Id)
    | CloseUpvals(th: Id, level: nat)
    | SetBasicMetatable(i: nat, v: Value)
    | Resume(th: Id)
    | FixString(o: Id)
    | ResizeStrings(size: nat)

  /** `v` is no object, or one that the program can reach. */
  ghost predicate Usable(g: G, v: Value) {
    v.Ref? ==> Reachable(g, false, v.id)
  }

  /** The object is stored in a slot of the body, be it a key of an empty entry. */
  ghost predicate Holds(b: Body, x: Id) {
    match b
    case Userdata(meta, env, _, _) => meta == Ref(x) || env == Ref(x)
    case Upval(loc) => loc == Closed(Ref(x))
    case Closure(env, slots) => env == Ref(x) || Ref(x) in slots
    case Proto(slots) => Ref(x) in slots
    case Table(meta, _, _, arr, nodes) =>
      meta == Ref(x) || Ref(x) in arr || exists n :: n in nodes && (n.key == Ref(x) || n.val == Ref(x))
    case _ => false
  }

  /** Two bodies of an object that differ by a store; open upvalues, strings and threads are not stored into. */
  predicate SameKind(b: Body, b': Body) {
    || (b.Table? && b'.Table?)
    || (b.Userdata? && b'.Userdata? && b.finalized == b'.finalized)
    || (b.Closure? && b'.Closure?)
    || (b.Proto? && b'.Proto?)
    || (b.Upval? && b.loc.Closed? && b'.Upval? && b'.loc.Closed?)
  }

  /** A store of `v`: everything else that the new body holds was there before. */
  ghost predicate Stores(b: Body, b': Body, v: Value) {
    SameKind(b, b') && forall x :: Holds(b', x) ==> Holds(b, x) || v == Ref(x)
  }

  predicate IsThread(g: G, th: Id) {
    th in g.heap && g.heap[th].body.Thread?
  }

  /** What the interpreter guarantees before an operation: operands can be reached, new addresses are unused. */
  ghost predicate Enabled(g: G, op: Op) {
    match op
    case New(id, body) =>
      && id !in g.heap && !body.String? && !IsOpen(body) && (body.Thread? ==> body.openupval == [])
      && (forall x :: Sees(g.heap, body, x) ==> Reachable(g, false, x))
    case Intern(id, _) => id !in g.heap
    case Write(o, body, v) =>
      && Reachable(g, false, o) && o in g.heap && Usable(g, v) && Stores(g.heap[o].body, body, v)
      && (forall x :: Sees(g.heap, body, x) ==> Reachable(g, false, x))
    case SetStack(th, gt, stack) =>
      && Reachable(g, false, th) && IsThread(g, th) && Usable(g, gt) && (forall v :: v in stack ==> Usable(g, v))
      && (forall uv :: uv in g.heap[th].body.openupval ==> Level(g.heap, uv) < |stack|)
    case SetUpval(uv, v) => Reachable(g, false, uv) && uv in g.heap && IsOpen(g.heap[uv].body) && Usable(g, v)
    case FindUpval(th, level, id) =>
      Reachable(g, false, th) && IsThread(g, th) && level < |g.heap[th].body.stack| && id !in g.heap
    case CloseUpvals(th, _) => Reachable(g, false, th) && IsThread(g, th)
    case SetBasicMetatable(i, v) => i < |g.mt| && Usable(g, v)
    case Resume(th) => Reachable(g, false, th) && IsThread(g, th)
    case FixString(o) => Reachable(g, false, o) && o in g.heap && g.heap[o].body.String?
    case ResizeStrings(size) => size > 0
  }

  function PushValue(g: G, v: Value): G {
    if IsThread(g, g.cur) then
      var b := g.heap[g.cur].body;
      g.(heap := Rebody(g.heap, g.cur, b.(stack := b.stack + [v])))
    else g
  }

  /** Link a new object: userdata behind the main thread, anything else at the head of the root list. */
  function Link(g: G, id: Id, body: Body): G {
    var r := g.(heap := g.heap[id := Obj(White(g.white), false, body)]);
    if body.Userdata? && g.main in g.rootgc then InsertAt(r, IndexOf(g.rootgc, g.main) + 1, id) else InsertAt(r, 0, id)
  }

  function FindText(h: Heap, l: seq<Id>, text: seq<bv8>): (r: seq<Id>)
    ensures r == [] || (|r| == 1 && r[0] in l && r[0] in h && h[r[0]].body == String(text))
    ensures r == [] ==> forall o :: o in l && o in h ==> h[o].body != String(text)
  {
    if l == [] then []
    else if l[0] in h && h[l[0]].body == String(text) then [l[0]]
    else FindText(h, l[1..], text)
  }

  /** `if (isdead(o)) changewhite(o)`. */
  function Resurrect(g: G, o: Id): G
    requires o in g.heap
  {
    if Dead(g, o) then g.(heap := Paint(g.heap, o, White(g.white))) else g
  }

  function InternString(g: G, id: Id, text: seq<bv8>): G
    requires |g.strt| > 0
  {
    var j := Bucket(text, |g.strt|);
    var found := FindText(g.heap, g.strt[j], text);
    if found != [] then PushValue(Resurrect(g, found[0]), Ref(found[0]))
    else
      PushValue(g.(heap := g.heap[id := Obj(White(g.white), false, String(text))],
                   strt := g.strt[j := [id] + g.strt[j]]), Ref(id))
  }

  /** The place of `level` in a list sorted by decreasing level. */
  function Place(h: Heap, l: seq<Id>, level: nat): (i: nat)
    ensures i <= |l|
    ensures forall k :: 0 <= k < i ==> Level(h, l[k]) > level
    ensures i < |l| ==> Level(h, l[i]) <= level
  {
    if l == [] || Level(h, l[0]) <= level then 0 else 1 + Place(h, l[1..], level)
  }

  /** `luaF_findupval`: the open upvalue of a stack slot, made if there is none, revived if it is dead. */
  function FindOpen(g: G, th: Id, level: nat, id: Id): G
    requires IsThread(g, th)
  {
    var l := g.heap[th].body.openupval;
    var i := Place(g.heap, l, level);
    if i < |l| && l[i] in g.heap && Level(g.heap, l[i]) == level then PushValue(Resurrect(g, l[i]), Ref(l[i]))
    else
      var h := g.heap[id := Obj(White(g.white), false, Upval(Open(th, level)))];
      PushValue(g.(heap := Rebody(h, th, g.heap[th].body.(openupval := Insert(l, i, id))),
                   uvhead := [id] + g.uvhead), Ref(id))
  }

  function AllStrings(strt: seq<seq<Id>>): seq<Id> {
    if strt == [] then [] else strt[0] + AllStrings(strt[1..])
  }

  /** The loop of `luaS_resize`: each string is chained at the head of its new bucket. */
  function Chain(h: Heap, l: seq<Id>, table: seq<seq<Id>>): (r: seq<seq<Id>>)
    requires |table| > 0
    ensures |r| == |table|
    decreases |l|
  {
    if l == [] then table
    else if l[0] in h && h[l[0]].body.String? then
      var j := Bucket(h[l[0]].body.text, |table|);
      Chain(h, l[1..], table[j := [l[0]] + table[j]])
    else Chain(h, l[1..], table)
  }

  function Resize(g: G, size: nat): G
    requires size > 0
  {
    if g.phase == SweepString then g  // cannot resize during the traversal of the table
    else g.(strt := Chain(g.heap, AllStrings(g.strt), seq(size, _ => [])))
  }

  /** The effect of an operation. */
  function Apply(g: G, op: Op): G {
    match op
    case New(id, body) => PushValue(Link(g, id, body), Ref(id))
    case Intern(id, text) => if |g.strt| > 0 then InternString(g, id, text) else g
    case Write(o, body, v) =>
      if o in g.heap then
        var r := g.(heap := Rebody(g.heap, o, body));
        if body.Table? then BarrierBack(r, o, v) else Barrier(r, o, v)
      else g
    case SetStack(th, gt, stack) =>
      if IsThread(g, th) then g.(heap := Rebody(g.heap, th, g.heap[th].body.(gt := gt, stack := stack))) else g
    case SetUpval(uv, v) =>
      if uv in g.heap && IsOpen(g.heap[uv].body) then
        var th, level := g.heap[uv].body.loc.th, g.heap[uv].body.loc.level;
        if IsThread(g, th) && level < |g.heap[th].body.stack| then
          var r := g.(heap := Rebody(g.heap, th, g.heap[th].body.(stack := g.heap[th].body.stack[level := v])));
          Barrier(r, uv, v)
        else g
      else g
    case FindUpval(th, level, id) => if IsThread(g, th) then FindOpen(g, th, level, id) else g
    case CloseUpvals(th, level) => Close(g, th, level)
    case SetBasicMetatable(i, v) => if i < |g.mt| then g.(mt := g.mt[i := v]) else g
    case Resume(th) => g.(cur := th)
    case FixString(o) => if o in g.heap then g.(heap := g.heap[o := g.heap[o].(fixed := true)]) else g
    case ResizeStrings(size) => if size > 0 then Resize(g, size) else g
  }

  // Stacks

  /** A thread's stack or globals changed, and nothing else. */
  ghost predicate Restacks(h: Heap, h': Heap, th: Id) {
    && th in h && h[th].body.Thread?
    && h'.Keys == h.Keys
    && (forall o :: o in h && o != th ==> h'[o] == h[o])
    && h'[th] == h[th].(body := h'[th].body)
    && h'[th].body.Thread?
    && h'[th].body == h[th].body.(gt := h'[th].body.gt, stack := h'[th].body.stack)
  }

  lemma RestackUpvals(h: Heap, h': Heap, th: Id, uvhead: seq<Id>)
    requires Restacks(h, h', th) && UpvalsLinked(h, uvhead)
    requires forall uv :: uv in h[th].body.openupval ==> Level(h, uv) < |h'[th].body.stack|
    ensures UpvalsLinked(h', uvhead)
  {
    forall t | t in h' && h'[t].body.Thread?
      ensures OpenList(h', t, h'[t].body.openupval, |h'[t].body.stack|)
    {
      var l := h[t].body.openupval;
      assert OpenList(h, t, l, |h[t].body.stack|);
      assert forall uv :: uv in l ==> OpenAt(h, uv, t) && uv != th;
      DescendingSame(h, h', l);
    }
  }

  lemma RestackStrings(h: Heap, h': Heap, th: Id, strt: seq<seq<Id>>)
    requires Restacks(h, h', th) && StringsLinked(h, strt)
    ensures StringsLinked(h', strt)
  {
  }

  lemma RestackRoots(h: Heap, h': Heap, th: Id, rootgc: seq<Id>, tmudata: seq<Id>, main: Id)
    requires Restacks(h, h', th) && RootLinked(h, rootgc, tmudata, main)
    ensures RootLinked(h', rootgc, tmudata, main)
  {
    hide NoDup, Behind;
  }

  /** Every value in the new stack is alive, or is the old value of the same slot. */
  ghost predicate RestackAlive(g: G, g': G, th: Id)
    requires IsThread(g, th) && IsThread(g', th)
  {
    var b, b' := g.heap[th].body, g'.heap[th].body;
    && (AliveValue(g, b'.gt) || b'.gt == b.gt)
    && forall i :: 0 <= i < |b'.stack| ==> AliveValue(g, b'.stack[i]) || (i < |b.stack| && b'.stack[i] == b.stack[i])
  }

  lemma RestackSafe(g: G, g': G, th: Id)
    requires Safe(g) && Restacks(g.heap, g'.heap, th) && g' == g.(heap := g'.heap) && RestackAlive(g, g', th)
    ensures Safe(g')
  {
    assert forall x :: Alive(g', x) <==> Alive(g, x);
    assert forall x :: IsRoot(g', x) <==> IsRoot(g, x);
    forall o, x | Alive(g', o) && Refers(g'.heap, o, x)
      ensures Alive(g', x)
    {
      if o == th {
        RestackThread(g, g', th, x);
      } else if IsOpen(g.heap[o].body) && g.heap[o].body.loc.th == th {
        RestackOpen(g, g', th, o, x);
      } else {
        assert Refers(g.heap, o, x);
      }
    }
  }

  lemma RestackThread(g: G, g': G, th: Id, x: Id)
    requires Safe(g) && Restacks(g.heap, g'.heap, th) && RestackAlive(g, g', th) && Alive(g, th)
             && Refers(g'.heap, th, x)
    ensures Alive(g, x)
  {
    var b, b' := g.heap[th].body, g'.heap[th].body;
    if b'.gt == Ref(x) {
      if b'.gt == b.gt { assert Refers(g.heap, th, x); }
    } else {
      var i :| 0 <= i < |b'.stack| && b'.stack[i] == Ref(x);
      if i < |b.stack| && b.stack[i] == Ref(x) { assert Refers(g.heap, th, x); }
    }
  }

  /** An open upvalue of the thread sees the new stack. */
  lemma RestackOpen(g: G, g': G, th: Id, o: Id, x: Id)
    requires Safe(g) && Restacks(g.heap, g'.heap, th) && RestackAlive(g, g', th)
    requires Alive(g, o) && o != th && IsOpen(g.heap[o].body) && g.heap[o].body.loc.th == th && Refers(g'.heap, o, x)
    ensures Alive(g, x)
  {
    var i := g.heap[o].body.loc.level;
    assert g'.heap[th].body.stack[i] == Ref(x);
    if i < |g.heap[th].body.stack| && g.heap[th].body.stack[i] == Ref(x) { assert Refers(g.heap, o, x); }
  }

  lemma RestackSwept(g: G, g': G, th: Id, o: Id)
    requires Swept(g, o) && Restacks(g.heap, g'.heap, th) && g' == g.(heap := g'.heap)
    ensures Swept(g', o)
  {
  }

  lemma RestackTri(g: G, g': G, th: Id, except: set<Id>)
    requires Tri(g, false, except) && Restacks(g.heap, g'.heap, th) && g' == g.(heap := g'.heap)
    requires forall o :: o in g.heap && IsOpen(g.heap[o].body) ==> g.heap[o].color != Black
    ensures Tri(g', false, except)
  {
    assert Pending(g') == Pending(g);
    forall o | o in g'.heap && o !in except
      ensures ObjTri(g', false, o)
    {
      assert ObjTri(g, false, o);
      if o != th && !IsOpen(g.heap[o].body) { ObjTriKept(g, g', false, o); }
    }
  }

  lemma RestackColored(g: G, g': G, th: Id)
    requires Colored(g) && Restacks(g.heap, g'.heap, th) && g' == g.(heap := g'.heap)
    requires forall o :: o in g.heap && IsOpen(g.heap[o].body) ==> g.heap[o].color != Black
    ensures Colored(g')
  {
    hide Tri, Swept;
    match g.phase
    case Propagate => RestackTri(g, g', th, Elems(g.tmudata));
    case Sweep =>
      forall i | 0 <= i < g.sweepgc && i < |g.rootgc|
        ensures Swept(g', g'.rootgc[i])
      {
        RestackSwept(g, g', th, g.rootgc[i]);
      }
    case _ =>
  }

  /** A change of stack values keeps the invariant; stacks need no barrier. */
  lemma RestackKeepsInv(g: G, g': G, th: Id)
    requires Inv(g) && Restacks(g.heap, g'.heap, th) && g' == g.(heap := g'.heap) && RestackAlive(g, g', th)
    requires forall uv :: uv in g.heap[th].body.openupval ==> Level(g.heap, uv) < |g'.heap[th].body.stack|
    ensures Inv(g')
  {
    hide Inv, Linked, Safe, Colored, StringsLinked, UpvalsLinked, RootLinked, RestackAlive;
    InvParts(g);
    OpenNotBlack(g.heap, g.uvhead);
    RestackUpvals(g.heap, g'.heap, th, g.uvhead);
    RestackStrings(g.heap, g'.heap, th, g.strt);
    RestackRoots(g.heap, g'.heap, th, g.rootgc, g.tmudata, g.main);
    LinkedFrom(g');
    RestackSafe(g, g', th);
    RestackColored(g, g', th);
    InvFrom(g');
  }

  lemma UsableAlive(g: G, v: Value)
    requires Safe(g) && Usable(g, v)
    ensures AliveValue(g, v)
  {
    if v.Ref? { ReachableAlive(g, false, v.id); }
  }

  lemma OwnLevels(g: G, th: Id)
    requires UpvalsLinked(g.heap, g.uvhead) && IsThread(g, th)
    ensures forall uv :: uv in g.heap[th].body.openupval ==> Level(g.heap, uv) < |g.heap[th].body.stack|
  {
    assert OpenList(g.heap, th, g.heap[th].body.openupval, |g.heap[th].body.stack|);
  }

  /** Pushing a live value. */
  lemma PushKeepsInv(g: G, v: Value)
    requires Inv(g) && AliveValue(g, v)
    ensures Inv(PushValue(g, v))
  {
    hide Inv, Linked, Safe, Colored, StringsLinked, UpvalsLinked, RootLinked;
    InvParts(g);
    OwnLevels(g, g.cur);
    RestackKeepsInv(g, PushValue(g, v), g.cur);
  }

  lemma SetStackKeepsInv(g: G, th: Id, gt: Value, stack: seq<Value>)
    requires Inv(g) && Enabled(g, SetStack(th, gt, stack))
    ensures Inv(Apply(g, SetStack(th, gt, stack)))
  {
    hide Inv, Linked, Safe, Colored, StringsLinked, UpvalsLinked, RootLinked;
    InvParts(g);
    UsableAlive(g, gt);
    forall v | v in stack
      ensures AliveValue(g, v)
    {
      UsableAlive(g, v);
    }
    RestackKeepsInv(g, Apply(g, SetStack(th, gt, stack)), th);
  }

  lemma OpenUpvalOf(g: G, uv: Id)
    requires UpvalsLinked(g.heap, g.uvhead) && uv in g.heap && IsOpen(g.heap[uv].body)
    ensures var loc := g.heap[uv].body.loc;
            IsThread(g, loc.th) && loc.level < |g.heap[loc.th].body.stack| && g.heap[uv].color != Black && uv != loc.th
  {
    var th := g.heap[uv].body.loc.th;
    assert OpenList(g.heap, th, g.heap[th].body.openupval, |g.heap[th].body.stack|);
  }

  /** `OP_SETUPVAL` on an open upvalue writes a stack slot, perhaps that of a dead thread. */
  lemma SetUpvalKeepsInv(g: G, uv: Id, v: Value)
    requires Inv(g) && Enabled(g, SetUpval(uv, v))
    ensures Inv(Apply(g, SetUpval(uv, v)))
  {
    hide Inv, Linked, Safe, Colored, StringsLinked, UpvalsLinked, RootLinked;
    InvParts(g);
    UsableAlive(g, v);
    OpenUpvalOf(g, uv);
    var th, level := g.heap[uv].body.loc.th, g.heap[uv].body.loc.level;
    OwnLevels(g, th);
    var r := g.(heap := Rebody(g.heap, th, g.heap[th].body.(stack := g.heap[th].body.stack[level := v])));
    assert Apply(g, SetUpval(uv, v)) == r;
    RestackKeepsInv(g, r, th);
  }

  // Stores

  /** The object's contents changed by a store, and nothing else. */
  ghost predicate Rewrites(g: G, g': G, o: Id, v: Value) {
    && o in g.heap
    && g' == g.(heap := g'.heap)
    && g'.heap.Keys == g.heap.Keys
    && (forall x :: x in g.heap && x != o ==> g'.heap[x] == g.heap[x])
    && g'.heap[o] == g.heap[o].(body := g'.heap[o].body)
    && Stores(g.heap[o].body, g'.heap[o].body, v)
  }

  lemma RewriteLinked(g: G, g': G, o: Id, v: Value)
    requires Linked(g) && Rewrites(g, g', o, v)
    ensures Linked(g')
  {
    hide Linked, StringsLinked, UpvalsLinked, RootLinked;
    LinkedParts(g);
    OpenNotBlack(g.heap, g.uvhead);
    assert SameLinks(g.heap, g'.heap);
    LinkedSameLinks(g, g');
  }

  lemma RewriteSafe(g: G, g': G, o: Id, v: Value)
    requires Safe(g) && Rewrites(g, g', o, v)
    requires forall x :: Sees(g.heap, g'.heap[o].body, x) ==> Alive(g, x)
    ensures Safe(g')
  {
    assert forall x :: Alive(g', x) <==> Alive(g, x);
    assert forall x :: IsRoot(g', x) <==> IsRoot(g, x);
    forall y, x | Alive(g', y) && Refers(g'.heap, y, x)
      ensures Alive(g', x)
    {
      if y == o {
        assert Sees(g.heap, g'.heap[o].body, x);
      } else {
        assert Refers(g.heap, y, x);
      }
    }
  }

  lemma RewriteColored(g: G, g': G, o: Id, v: Value)
    requires Colored(g) && g.phase != Propagate && Rewrites(g, g', o, v)
    ensures Colored(g')
  {
    hide Tri, Stores;
    assert !g.heap[o].body.Thread?
           && !g'.heap[o].body.Thread? by { StoresNoThread(g.heap[o].body, g'.heap[o].body, v); }
    if g.phase == Sweep {
      forall i | 0 <= i < g.sweepgc && i < |g.rootgc|
        ensures Swept(g', g'.rootgc[i])
      {
        assert Swept(g, g.rootgc[i]);
      }
    }
  }

  lemma StoresNoThread(b: Body, b': Body, v: Value)
    requires Stores(b, b', v)
    ensures !b.Thread? && !b'.Thread?
  {
  }

  /** Outside the mark phase a black object may turn gray or white at any time. */
  lemma RecolorSafe(g: G, o: Id, c: Color)
    requires Safe(g) && o in g.heap && g.heap[o].color == Black && c != White(!g.white)
    ensures Safe(g.(heap := Paint(g.heap, o, c)))
  {
    var r := g.(heap := Paint(g.heap, o, c));
    PaintRefers(g, o, c);
    assert forall x :: Alive(r, x) <==> Alive(g, x);
    assert forall x :: IsRoot(r, x) <==> IsRoot(g, x);
  }

  lemma RecolorLinked(g: G, o: Id, c: Color)
    requires Linked(g) && o in g.heap && c != Black
    ensures Linked(g.(heap := Paint(g.heap, o, c)))
  {
    hide Linked, StringsLinked, UpvalsLinked, RootLinked;
    LinkedParts(g);
    OpenNotBlack(g.heap, g.uvhead);
    assert SameLinks(g.heap, Paint(g.heap, o, c));
    LinkedSameLinks(g, g.(heap := Paint(g.heap, o, c)));
  }

  lemma RecolorColored(g: G, o: Id, c: Color)
    requires Colored(g) && g.phase != Propagate && o in g.heap && g.heap[o].color == Black && c != White(!g.white)
    ensures Colored(g.(heap := Paint(g.heap, o, c)))
  {
    hide Tri;
    var r := g.(heap := Paint(g.heap, o, c));
    if g.phase == Sweep {
      forall i | 0 <= i < g.sweepgc && i < |g.rootgc|
        ensures Swept(r, r.rootgc[i])
      {
        assert Swept(g, g.rootgc[i]);
      }
    }
  }

  lemma GrayagainFree(g: G, l: seq<Id>)
    requires Inv(g) && g.phase != Propagate
    ensures Inv(g.(grayagain := l))
  {
    hide Inv, StringsLinked, UpvalsLinked, RootLinked, Swept, Sees;
    var r := g.(grayagain := l);
    InvParts(g);
    LinkedFrom(r);
    assert forall x :: Alive(r, x) <==> Alive(g, x);
    assert forall x :: IsRoot(r, x) <==> IsRoot(g, x);
    if g.phase == Sweep {
      forall i | 0 <= i < g.sweepgc && i < |g.rootgc|
        ensures Swept(r, r.rootgc[i])
      {
        GraySwept(g, r, g.rootgc[i]);
      }
    }
    InvFrom(r);
  }

  lemma GraySwept(g: G, r: G, o: Id)
    requires Swept(g, o) && r == g.(grayagain := r.grayagain)
    ensures Swept(r, o)
  {
  }

  lemma RecolorKeepsInv(g: G, o: Id, c: Color)
    requires Inv(g) && g.phase != Propagate && o in g.heap && g.heap[o].color == Black
             && (c == Gray || c == White(g.white))
    ensures Inv(g.(heap := Paint(g.heap, o, c)))
  {
    hide Inv, Linked, Safe, Colored, StringsLinked, UpvalsLinked, RootLinked;
    InvParts(g);
    RecolorSafe(g, o, c);
    RecolorLinked(g, o, c);
    RecolorColored(g, o, c);
    InvFrom(g.(heap := Paint(g.heap, o, c)));
  }

  /** The barriers outside the mark phase. */
  lemma BarrierSweepKeepsInv(g: G, o: Id, v: Value)
    requires Inv(g) && g.phase != Propagate && o in g.heap
    ensures Inv(Barrier(g, o, v)) && Inv(BarrierBack(g, o, v))
  {
    hide Inv;
    if IsWhite(g, v) && g.heap[o].color == Black {
      RecolorKeepsInv(g, o, White(g.white));
      RecolorKeepsInv(g, o, Gray);
      GrayagainFree(g.(heap := Paint(g.heap, o, Gray)), [o] + g.grayagain);
    }
  }

  lemma RewriteKeepsInv(g: G, r: G, o: Id, v: Value)
    requires Inv(g) && g.phase != Propagate && Rewrites(g, r, o, v)
    requires forall x :: Sees(g.heap, r.heap[o].body, x) ==> Alive(g, x)
    ensures Inv(r)
  {
    hide Inv, Linked, Safe, Colored, StringsLinked, UpvalsLinked, RootLinked, Stores;
    InvParts(g);
    RewriteLinked(g, r, o, v);
    RewriteSafe(g, r, o, v);
    RewriteColored(g, r, o, v);
    RewriteThread(g, r, o, v);
    InvFrom(r);
  }

  lemma RewriteThread(g: G, r: G, o: Id, v: Value)
    requires Rewrites(g, r, o, v) && IsThread(g, g.cur)
    ensures IsThread(r, r.cur)
  {
  }

  lemma SlotsAreHeld(h: Heap, b: Body)
    requires b.Table? || b.Userdata? || b.Closure? || b.Proto? || IsClosed(b)
    ensures SlotsMarked(h, b) <==> forall x :: Holds(b, x) ==> Marked(h, Ref(x))
  {
    if forall x :: Holds(b, x) ==> Marked(h, Ref(x)) {
      HeldMarked(h, b);
    }
    if SlotsMarked(h, b) {
      forall x | Holds(b, x)
        ensures Marked(h, Ref(x))
      {
        SlotsHold(h, b, x);
      }
    }
  }

  lemma HeldMarked(h: Heap, b: Body)
    requires b.Table? || b.Userdata? || b.Closure? || b.Proto? || IsClosed(b)
    requires forall x :: Holds(b, x) ==> Marked(h, Ref(x))
    ensures SlotsMarked(h, b)
  {
    match b
    case Table(meta, _, _, arr, nodes) =>
      assert meta.Ref? ==> Holds(b, meta.id);
      assert forall v :: v in arr && v.Ref? ==> Holds(b, v.id);
      assert forall n :: n in nodes ==> (n.key.Ref? ==> Holds(b, n.key.id)) && (n.val.Ref? ==> Holds(b, n.val.id));
    case Userdata(meta, env, _, _) =>
      assert meta.Ref? ==> Holds(b, meta.id);
      assert env.Ref? ==> Holds(b, env.id);
    case Closure(env, slots) =>
      assert env.Ref? ==> Holds(b, env.id);
      assert forall v :: v in slots && v.Ref? ==> Holds(b, v.id);
    case Proto(slots) => assert forall v :: v in slots && v.Ref? ==> Holds(b, v.id);
    case Upval(loc) => assert loc.v.Ref? ==> Holds(b, loc.v.id);
  }

  lemma SlotsHold(h: Heap, b: Body, x: Id)
    requires b.Table? || b.Userdata? || b.Closure? || b.Proto? || IsClosed(b)
    requires Holds(b, x) && SlotsMarked(h, b)
    ensures Marked(h, Ref(x))
  {
  }

  /** With the stored value marked, a store leaves a black object without white references. */
  lemma StoreKeepsSlots(h: Heap, h': Heap, b: Body, b': Body, v: Value)
    requires Stores(b, b', v) && SlotsMarked(h, b) && KeepsMarks(h, h') && Marked(h', v)
    ensures SlotsMarked(h', b')
  {
    hide SlotsMarked, Holds;
    SlotsAreHeld(h, b);
    SlotsAreHeld(h', b');
    forall x | Holds(b', x)
      ensures Marked(h', Ref(x))
    {
      if Holds(b, x) { assert Marked(h, Ref(x)); }
    }
  }

  lemma RewriteUpvalValue(g: G, r: G, o: Id, v: Value, loc: Loc)
    requires Rewrites(g, r, o, v)
    ensures UpvalValue(r.heap, loc) == UpvalValue(g.heap, loc)
  {
  }

  lemma RewriteTri(g: G, r: G, o: Id, v: Value, except: set<Id>)
    requires Tri(g, false, except) && Rewrites(g, r, o, v)
    ensures Tri(r, false, except + {o})
  {
    assert Pending(r) == Pending(g);
    assert ListsOk(r) by { RewriteLists(g, r, o, v); }
    forall x | x in r.heap && x !in except + {o}
      ensures ObjTri(r, false, x)
    {
      if g.heap[x].body.Upval? { RewriteUpvalValue(g, r, o, v, g.heap[x].body.loc); }
      ObjTriKept(g, r, false, x);
    }
  }

  lemma RewriteLists(g: G, r: G, o: Id, v: Value)
    requires ListsOk(g) && Rewrites(g, r, o, v)
    ensures ListsOk(r)
  {
    assert Pending(r) == Pending(g);
  }

  lemma BarrierTri(g: G, r: G, o: Id, v: Value, except: set<Id>)
    requires Tri(g, false, except) && g.phase == Propagate && Rewrites(g, r, o, v) && NoDangling(r.heap)
             && !g.heap[o].body.Table?
    requires v.Ref? ==> v.id in r.heap
    ensures var s := Barrier(r, o, v);
            && Tri(s, false, except) && SameButColor(r.heap, s.heap) && KeepsMarks(r.heap, s.heap)
            && OnlyMarks(r.heap, s.heap) && s == r.(heap := s.heap, gray := s.gray)
  {
    hide SlotsMarked, Stores, NoDangling;
    RewriteTri(g, r, o, v, except);
    var s := Barrier(r, o, v);
    if IsWhite(r, v) && r.heap[o].color == Black {
      MarkValueMarks(Mk(r), v);
      MarksKeepTri(r, false, except + {o}, MarkValue(Mk(r), v));
    }
    if o !in except {
      assert ObjTri(g, false, o);
      BarrierObjTri(g, r, s, o, v);
    }
  }

  lemma BarrierObjTri(g: G, r: G, s: G, o: Id, v: Value)
    requires Rewrites(g, r, o, v) && ObjTri(g, false, o) && OnlyMarks(r.heap, s.heap) && s.white == g.white
    requires !g.heap[o].body.Table?
    requires s.heap[o].color == g.heap[o].color
    requires g.heap[o].color == Black ==> Marked(s.heap, v)
    requires forall x :: x in Pending(g) ==> x in Pending(s)
    ensures ObjTri(s, false, o)
  {
    if g.heap[o].color == Black {
      StoreKeepsSlots(g.heap, s.heap, g.heap[o].body, s.heap[o].body, v);
    }
  }

  lemma BarrierBackTri(g: G, r: G, o: Id, v: Value, except: set<Id>)
    requires Tri(g, false, except) && Rewrites(g, r, o, v) && g.heap[o].body.Table? && o !in except
    requires v.Ref? ==> v.id in r.heap
    ensures var s := BarrierBack(r, o, v);
            && Tri(s, false, except) && SameButColor(r.heap, s.heap) && KeepsMarks(r.heap, s.heap)
            && (forall x :: x in r.heap && x != o ==> s.heap[x] == r.heap[x])
            && s.heap[o].color != White(!g.white) && s == r.(heap := s.heap, grayagain := s.grayagain)
  {
    hide SlotsMarked, Stores, ListsOk, Tri, Pending;
    RewriteTri(g, r, o, v, except);
    RewriteTable(g, r, o, v);
    TriOf(g, except, o);
    if IsWhite(r, v) && r.heap[o].color == Black {
      BackTri(r, o, except);
    } else {
      if r.heap[o].color == Black { StoreKeepsSlots(g.heap, r.heap, g.heap[o].body, r.heap[o].body, v); }
      assert Pending(r) == Pending(g) by { SamePending(g, r); }
      TriWith(r, except, o);
    }
  }

  lemma SamePending(g: G, r: G)
    requires r.gray == g.gray && r.grayagain == g.grayagain && r.weak == g.weak
    ensures Pending(r) == Pending(g)
  {
  }

  lemma TriOf(g: G, except: set<Id>, o: Id)
    requires Tri(g, false, except) && o in g.heap && o !in except
    ensures ListsOk(g) && ObjTri(g, false, o) && (g.heap[o].color == Black ==> o !in Pending(g))
  {
  }

  lemma TriWith(g: G, except: set<Id>, o: Id)
    requires Tri(g, false, except + {o}) && o in g.heap && ObjTri(g, false, o)
    ensures Tri(g, false, except)
  {
  }

  /** The table turned gray by the backward barrier. */
  lemma BackTri(r: G, o: Id, except: set<Id>)
    requires Tri(r, false, except + {o}) && o in r.heap && r.heap[o].color == Black && r.heap[o].body.Table?
             && o !in except
    ensures Tri(r.(heap := Paint(r.heap, o, Gray), grayagain := [o] + r.grayagain), false, except)
  {
    hide SlotsMarked, ListsOk;
    var s := r.(heap := Paint(r.heap, o, Gray), grayagain := [o] + r.grayagain);
    assert o !in Pending(r) by { BlackNotPending(r, o); }
    BackListed(r, o);
    forall x | x in s.heap && x !in except
      ensures ObjTri(s, false, x)
    {
      if x != o {
        if r.heap[x].body.Upval? { UpvalValueSame(r.heap, s.heap, r.heap[x].body.loc); }
        ObjTriKept(r, s, false, x);
      }
    }
  }

  lemma BlackNotPending(r: G, o: Id)
    requires ListsOk(r) && o in r.heap && r.heap[o].color == Black
    ensures o !in Pending(r)
  {
  }

  lemma RewriteTable(g: G, r: G, o: Id, v: Value)
    requires Rewrites(g, r, o, v)
    ensures r.heap[o].body.Table? <==> g.heap[o].body.Table?
    ensures r.heap[o].body.Userdata? <==> g.heap[o].body.Userdata?
  {
  }

  /** A table caught by the backward barrier waits in `grayagain`, where nothing else links it. */
  lemma BackListed(r: G, o: Id)
    requires ListsOk(r) && o in r.heap && o !in Pending(r) && r.heap[o].body.Table?
    ensures var s := r.(heap := Paint(r.heap, o, Gray), grayagain := [o] + r.grayagain);
            ListsOk(s) && o in Pending(s) && forall x :: x in Pending(r) ==> x in Pending(s)
  {
    var s := r.(heap := Paint(r.heap, o, Gray), grayagain := [o] + r.grayagain);
    assert Pending(s) == r.gray + ([o] + (r.grayagain + r.weak));
    assert Pending(r) == r.gray + (r.grayagain + r.weak);
    ConcatNoDup([o], Pending(r));
    InsertNoDup(o, r.gray, r.grayagain + r.weak);
    forall x | x in Pending(s)
      ensures x in s.heap && s.heap[x].color == Gray && Traversable(s.heap[x].body)
    {
      assert x == o || x in Pending(r);
    }
  }

  /** What a store followed by its barrier comes to in the mark phase. */
  ghost predicate MarkingStore(g: G, r: G, s: G) {
    && Tri(s, false, Elems(g.tmudata)) && SameButColor(r.heap, s.heap) && KeepsMarks(g.heap, s.heap)
    && s == g.(heap := s.heap, gray := s.gray, grayagain := s.grayagain)
    && forall x :: x in g.tmudata && x in s.heap ==> s.heap[x].color != White(!g.white)
  }

  lemma MarkingStoreKeepsInv(g: G, r: G, s: G, o: Id, v: Value)
    requires Inv(g) && g.phase == Propagate && Rewrites(g, r, o, v) && MarkingStore(g, r, s)
    requires Linked(r) && Safe(r)
    ensures Inv(s)
  {
    hide Linked, StringsLinked, UpvalsLinked, RootLinked, Tri, NoDangling, NoneDead, Stores, Safe;
    InvParts(g);
    MarkPhaseFacts(g);
    RewriteNoneDead(g, r, o, v);
    SafeNoDangling(r);
    NoDanglingSame(r.heap, s.heap);
    assert forall x :: x in s.tmudata ==> x in s.heap && s.heap[x].body.Userdata? by { RewriteUserdata(g, r, o, v); }
    TriNoneDead(s, false);
    RootsOf(r, s);
    NoDanglingSafe(s);
    TriOpenNotBlack(s, false);
    assert SameLinks(r.heap, s.heap);
    LinkedSameLinks(r, s);
    RewriteThread(g, r, o, v);
    PropagateParts(g);
  }

  lemma PropagateParts(g: G)
    requires Inv(g) && g.phase == Propagate
    ensures Marked(g.heap, Ref(g.main)) && Marked(g.heap, g.registry)
  {
  }

  lemma RootsOf(r: G, s: G)
    requires Safe(r) && SameButColor(r.heap, s.heap)
    requires s == r.(heap := s.heap, gray := s.gray, grayagain := s.grayagain)
    ensures forall x :: IsRoot(s, x) ==> x in s.heap
  {
    assert forall x :: IsRoot(s, x) <==> IsRoot(r, x);
  }

  lemma RewriteNoneDead(g: G, r: G, o: Id, v: Value)
    requires NoneDead(g) && Rewrites(g, r, o, v)
    ensures NoneDead(r)
  {
  }

  lemma RewriteUserdata(g: G, r: G, o: Id, v: Value)
    requires Rewrites(g, r, o, v)
    ensures forall x :: x in g.heap && g.heap[x].body.Userdata? ==> x in r.heap && r.heap[x].body.Userdata?
  {
    RewriteTable(g, r, o, v);
  }

  lemma WriteMarking(g: G, o: Id, body: Body, v: Value, r: G)
    requires Inv(g) && g.phase == Propagate && r == g.(heap := r.heap) && Rewrites(g, r, o, v) && r.heap[o].body == body
    requires Safe(r) && (v.Ref? ==> v.id in r.heap)
    ensures MarkingStore(g, r, if body.Table? then BarrierBack(r, o, v) else Barrier(r, o, v))
  {
    if body.Table? { WriteTable(g, o, v, r); } else { WriteOther(g, o, v, r); }
  }

  lemma WriteTable(g: G, o: Id, v: Value, r: G)
    requires Inv(g) && g.phase == Propagate && r == g.(heap := r.heap) && Rewrites(g, r, o, v) && r.heap[o].body.Table?
    requires Safe(r) && (v.Ref? ==> v.id in r.heap)
    ensures MarkingStore(g, r, BarrierBack(r, o, v))
  {
    hide Linked, StringsLinked, UpvalsLinked, RootLinked, Tri, NoDangling, NoneDead, Stores, Safe, SlotsMarked;
    MarkPhaseFacts(g);
    RewriteNoneDead(g, r, o, v);
    SafeNoDangling(r);
    RewriteTable(g, r, o, v);
    RewriteMarks(g, r, o, v);
    assert o !in g.tmudata;
    BarrierBackTri(g, r, o, v, Elems(g.tmudata));
  }

  lemma WriteOther(g: G, o: Id, v: Value, r: G)
    requires Inv(g) && g.phase == Propagate && r == g.(heap := r.heap) && Rewrites(g, r, o, v) && !r.heap[o].body.Table?
    requires Safe(r) && (v.Ref? ==> v.id in r.heap)
    ensures MarkingStore(g, r, Barrier(r, o, v))
  {
    hide Linked, StringsLinked, UpvalsLinked, RootLinked, Tri, NoDangling, NoneDead, Stores, Safe, SlotsMarked;
    MarkPhaseFacts(g);
    RewriteNoneDead(g, r, o, v);
    SafeNoDangling(r);
    RewriteTable(g, r, o, v);
    RewriteMarks(g, r, o, v);
    BarrierTri(g, r, o, v, Elems(g.tmudata));
  }

  lemma RewriteMarks(g: G, r: G, o: Id, v: Value)
    requires Rewrites(g, r, o, v)
    ensures KeepsMarks(g.heap, r.heap) && forall x :: x in g.heap ==> r.heap[x].color == g.heap[x].color
  {
  }

  /** A store with its barrier keeps the invariant. */
  lemma WriteKeepsInv(g: G, o: Id, body: Body, v: Value)
    requires Inv(g) && Enabled(g, Write(o, body, v))
    ensures Inv(Apply(g, Write(o, body, v)))
  {
    hide Inv, Linked, Safe, Colored, StringsLinked, UpvalsLinked, RootLinked, Stores, Reachable, Sees;
    InvParts(g);
    UsableAlive(g, v);
    forall x | Sees(g.heap, body, x)
      ensures Alive(g, x)
    {
      ReachableAlive(g, false, x);
    }
    var r := g.(heap := Rebody(g.heap, o, body));
    assert Rewrites(g, r, o, v);
    RewriteSafe(g, r, o, v);
    if g.phase == Propagate {
      RewriteLinked(g, r, o, v);
      WriteMarking(g, o, body, v, r);
      MarkingStoreKeepsInv(g, r, Apply(g, Write(o, body, v)), o, v);
    } else {
      RewriteKeepsInv(g, r, o, v);
      BarrierSweepKeepsInv(r, o, v);
    }
  }
}
