/** The collector's data: collectable objects, colours and the global state. */
module GcState {

  /** The address of a collectable object. */
  type Id = nat

  /** The colour bits of an object's mark byte: two whites, black, or neither (gray). */
  datatype Color = White(w: bool) | Gray | Black

  /** A tagged value. `DeadKey` is the tag that `removeentry` leaves on a table key. */
  datatype Value = Nil | Prim(n: int) | Ref(id: Id) | DeadKey(id: Id)

  datatype Node = Node(key: Value, val: Value)

  /** Weakness of a table's keys and of its values. */
  datatype Mode = Mode(keys: bool, values: bool)

  /** An upvalue lives in a stack slot while open, and in the upvalue itself once closed. */
  datatype Loc = Open(th: Id, level: nat) | Closed(v: Value)

  datatype Body =
    | String(text: seq<bv8>)
    | Userdata(meta: Value, env: Value, hasgc: bool, finalized: bool)
    | Upval(loc: Loc)
    | Closure(env: Value, slots: seq<Value>)
    | Proto(slots: seq<Value>)
    | Table(meta: Value, mode: Mode, bits: Mode, arr: seq<Value>, nodes: seq<Node>)
    | Thread(gt: Value, stack: seq<Value>, openupval: seq<Id>)

  datatype Obj = Obj(color: Color, fixed: bool, body: Body)

  type Heap = map<Id, Obj>

  datatype Phase = Pause | Propagate | SweepString | Sweep | Finalize

  /**
    `global_State`. `rootgc` is the list of all objects except strings, open upvalues
    and userdata waiting for their finalizer; `strt` is the string table; `sweepgc` and
    `sweepstrgc` are the sweep positions in them; `white` is the current white.
    `cur` is the running thread.
   */
  datatype G = G(
    heap: Heap, rootgc: seq<Id>, sweepgc: nat, strt: seq<seq<Id>>, sweepstrgc: nat,
    gray: seq<Id>, grayagain: seq<Id>, weak: seq<Id>,
    tmudata: seq<Id>, uvhead: seq<Id>,
    white: bool, phase: Phase, main: Id, cur: Id, registry: Value, mt: seq<Value>)

  predicate Traversable(b: Body) {
    b.Closure? || b.Proto? || b.Table? || b.Thread?
  }

  predicate IsOpen(b: Body) {
    b.Upval? && b.loc.Open?
  }

  /** The value an upvalue denotes. */
  function UpvalValue(h: Heap, loc: Loc): Value {
    match loc
    case Closed(v) => v
    case Open(th, level) =>
      if th in h && h[th].body.Thread? && level < |h[th].body.stack| then h[th].body.stack[level] else Nil
  }

  /** `isdead`: the object carries the white that the running sweep collects. */
  predicate Dead(g: G, o: Id) {
    o in g.heap && g.heap[o].color == White(!g.white)
  }

  function Paint(h: Heap, o: Id, c: Color): Heap
    requires o in h
  {
    h[o := h[o].(color := c)]
  }

  function Whites(h: Heap): set<Id> {
    set o | o in h && h[o].color.White?
  }

  /** An object's references as the program sees them: every one but keys of empty entries. */
  ghost predicate Sees(h: Heap, b: Body, x: Id) {
    match b
    case String(_) => false
    case Userdata(meta, env, _, _) => meta == Ref(x) || env == Ref(x)
    case Upval(loc) => UpvalValue(h, loc) == Ref(x)
    case Closure(env, slots) => env == Ref(x) || Ref(x) in slots
    case Proto(slots) => Ref(x) in slots
    case Table(meta, _, _, arr, nodes) =>
      meta == Ref(x) || Ref(x) in arr || exists n :: n in nodes && !n.val.Nil? && (n.key == Ref(x) || n.val == Ref(x))
    case Thread(gt, stack, _) => gt == Ref(x) || Ref(x) in stack
  }

  /** The strong references among them: a weak table's weak side does not keep objects alive. */
  ghost predicate SeesStrongly(h: Heap, b: Body, x: Id) {
    match b
    case Table(meta, mode, _, arr, nodes) =>
      || meta == Ref(x)
      || (!mode.values && Ref(x) in arr)
      || exists n :: n in nodes && !n.val.Nil? && ((!mode.keys && n.key == Ref(x)) || (!mode.values && n.val == Ref(x)))
    case _ => Sees(h, b, x)
  }

  /** The roots: main thread, running thread, registry, basic metatables, userdata to finalize. */
  ghost predicate IsRoot(g: G, x: Id) {
    x == g.main || x == g.cur || g.registry == Ref(x) || Ref(x) in g.mt || x in g.tmudata
  }

  ghost predicate Refers(h: Heap, x: Id, y: Id) {
    x in h && Sees(h, h[x].body, y)
  }

  ghost predicate Edge(h: Heap, strong: bool, x: Id, y: Id) {
    Refers(h, x, y) && (strong ==> SeesStrongly(h, h[x].body, y))
  }

  ghost predicate Path(g: G, strong: bool, p: seq<Id>) {
    && |p| > 0
    && IsRoot(g, p[0])
    && forall i :: 0 <= i < |p| - 1 ==> Edge(g.heap, strong, p[i], p[i + 1])
  }

  /** `x` is at the end of a path of references from a root. */
  ghost predicate Reachable(g: G, strong: bool, x: Id) {
    exists p :: Path(g, strong, p) && p[|p| - 1] == x
  }

  /** Everything reachable lies in any set that holds the roots and is closed under references. */
  lemma {:induction false} PathStaysIn(g: G, strong: bool, p: seq<Id>, s: set<Id>)
    requires Path(g, strong, p)
    requires forall x :: IsRoot(g, x) ==> x in s
    requires forall x, y :: x in s && Edge(g.heap, strong, x, y) ==> y in s
    ensures p[|p| - 1] in s
  {
    if |p| > 1 {
      var q := p[..|p| - 1];
      PathStaysIn(g, strong, q, s);
      assert Edge(g.heap, strong, p[|p| - 2], p[|p| - 1]);
    }
  }

  lemma ReachableStaysIn(g: G, strong: bool, s: set<Id>)
    requires forall x :: IsRoot(g, x) ==> x in s
    requires forall x, y :: x in s && Edge(g.heap, strong, x, y) ==> y in s
    ensures forall x :: Reachable(g, strong, x) ==> x in s
  {
    forall x | Reachable(g, strong, x)
      ensures x in s
    {
      var p :| Path(g, strong, p) && p[|p| - 1] == x;
      PathStaysIn(g, strong, p, s);
    }
  }

  /** Roots are reachable, and so is whatever a reachable object refers to. */
  lemma ReachableExtends(g: G, strong: bool, x: Id, y: Id)
    ensures IsRoot(g, x) ==> Reachable(g, strong, x)
    ensures Reachable(g, strong, x) && Edge(g.heap, strong, x, y) ==> Reachable(g, strong, y)
  {
    if IsRoot(g, x) {
      assert Path(g, strong, [x]) && [x][|[x]| - 1] == x;
    }
    if Reachable(g, strong, x) && Edge(g.heap, strong, x, y) {
      var p :| Path(g, strong, p) && p[|p| - 1] == x;
      var q := p + [y];
      assert Path(g, strong, q) && q[|q| - 1] == y;
    }
  }
}
