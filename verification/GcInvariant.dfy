/** The invariant of the whole heap: how objects are linked, coloured, and refer to each other. */
module GcInvariant {
  import opened GcState
  import opened GcLists
  import opened GcMark
  import opened GcPropagate

  /** The hash of `luaS_newlstr`, which skips characters of long strings. */
  function HashFrom(text: seq<bv8>, l1: nat, step: nat, h: bv32): bv32
    requires l1 <= |text| && step > 0
  {
    if l1 < step then h
    else HashFrom(text, l1 - step, step, h ^ ((h << 5) + (h >> 2) + (text[l1 - 1] as bv32)))
  }

  function Hash(text: seq<bv8>): nat {
    HashFrom(text, |text|, |text| / 32 + 1, (|text| % 0x1_0000_0000) as bv32) as nat
  }

  function Bucket(text: seq<bv8>, size: nat): nat
    requires size > 0
    ensures Bucket(text, size) < size
  {
    Hash(text) % size
  }

  predicate Alive(g: G, x: Id) {
    x in g.heap && !Dead(g, x)
  }

  predicate AliveValue(g: G, v: Value) {
    v.Ref? ==> Alive(g, v.id)
  }

  /** Every string is in its bucket, and no two strings have the same text. */
  ghost predicate StringsLinked(h: Heap, strt: seq<seq<Id>>) {
    && |strt| > 0
    && (forall j, o :: 0 <= j < |strt| && o in strt[j] ==>
                         o in h && h[o].body.String? && Bucket(h[o].body.text, |strt|) == j)
    && (forall j :: 0 <= j < |strt| ==> NoDup(strt[j]))
    && (forall o :: o in h && h[o].body.String? ==> o in strt[Bucket(h[o].body.text, |strt|)])
    && (forall o, p ::
          o in h && p in h && h[o].body.String? && h[p].body.String? && h[o].body.text == h[p].body.text ==> o == p)
  }

  predicate OpenAt(h: Heap, uv: Id, th: Id) {
    uv in h && IsOpen(h[uv].body) && h[uv].body.loc.th == th
  }

  function Level(h: Heap, uv: Id): nat {
    if uv in h && IsOpen(h[uv].body) then h[uv].body.loc.level else 0
  }

  ghost predicate Descending(h: Heap, l: seq<Id>) {
    forall i, j :: 0 <= i < j < |l| ==> Level(h, l[i]) > Level(h, l[j])
  }

  /** A thread's open upvalues are sorted by decreasing stack level, one for each slot. */
  ghost predicate OpenList(h: Heap, th: Id, l: seq<Id>, size: nat) {
    && (forall uv :: uv in l ==> OpenAt(h, uv, th) && Level(h, uv) < size)
    && Descending(h, l)
  }

  ghost predicate UpvalsLinked(h: Heap, uvhead: seq<Id>) {
    && (forall th :: th in h && h[th].body.Thread? ==> OpenList(h, th, h[th].body.openupval, |h[th].body.stack|))
    && (forall uv :: uv in h && IsOpen(h[uv].body) ==>
          var th := h[uv].body.loc.th;
          && th in h && h[th].body.Thread? && uv in h[th].body.openupval
          && h[uv].color != Black)
    && NoDup(uvhead)
    && (forall uv :: uv in uvhead <==> uv in h && IsOpen(h[uv].body))
  }

  /** Lists without duplicates; behind the main thread the root list holds only userdata. */
  ghost predicate RootOrder(h: Heap, rootgc: seq<Id>, tmudata: seq<Id>, main: Id) {
    && NoDup(rootgc) && NoDup(tmudata)
    && main in rootgc
    && (forall u :: u in Behind(rootgc, main) ==> u in h && h[u].body.Userdata?)
  }

  /** All other objects are in the root list, or are userdata that wait for a finalizer. */
  ghost predicate RootCover(h: Heap, rootgc: seq<Id>, tmudata: seq<Id>, main: Id) {
    && (forall o :: o in rootgc ==> o in h && !h[o].body.String? && !IsOpen(h[o].body) && o !in tmudata)
    && (forall o :: o in tmudata ==> o in h && h[o].body.Userdata?)
    && (forall o :: o in h && !h[o].body.String? && !IsOpen(h[o].body) ==> o in rootgc || o in tmudata)
    && main in h && h[main].body.Thread? && h[main].fixed
    && (forall o :: o in h && h[o].fixed ==> h[o].body.String? || o == main)
  }

  ghost predicate RootLinked(h: Heap, rootgc: seq<Id>, tmudata: seq<Id>, main: Id) {
    RootOrder(h, rootgc, tmudata, main) && RootCover(h, rootgc, tmudata, main)
  }

  ghost predicate Linked(g: G) {
    && StringsLinked(g.heap, g.strt)
    && UpvalsLinked(g.heap, g.uvhead)
    && RootLinked(g.heap, g.rootgc, g.tmudata, g.main)
  }

  /** An object that was swept, or is new: it and its open upvalues have the current white. */
  ghost predicate Swept(g: G, o: Id) {
    && o in g.heap && g.heap[o].color == White(g.white)
    && (g.heap[o].body.Thread? ==>
          forall uv :: uv in g.heap[o].body.openupval ==> uv in g.heap && g.heap[uv].color == White(g.white))
  }

  ghost predicate AllWhite(g: G) {
    forall o :: o in g.heap && o !in g.tmudata ==> g.heap[o].color == White(g.white)
  }

  ghost predicate StringsSwept(g: G, n: nat) {
    forall j, o :: 0 <= j < n && j < |g.strt| && o in g.strt[j] ==> o in g.heap && g.heap[o].color == White(g.white)
  }

  ghost predicate ListSwept(g: G, n: nat) {
    forall i :: 0 <= i < n && i < |g.rootgc| ==> Swept(g, g.rootgc[i])
  }

  /** What the colours say in each phase. */
  ghost predicate Colored(g: G) {
    match g.phase
    case Pause => AllWhite(g)
    case Propagate =>
      Tri(g, false, Elems(g.tmudata)) && Marked(g.heap, Ref(g.main)) && Marked(g.heap, g.registry)
    case SweepString => g.sweepstrgc < |g.strt| && g.sweepgc == 0 && StringsSwept(g, g.sweepstrgc)
    case Sweep => StringsSwept(g, |g.strt|) && g.sweepgc <= |g.rootgc| && ListSwept(g, g.sweepgc)
    case Finalize => AllWhite(g)
  }

  /** No root is dead, and no object that is not dead refers to one that is, or to a freed one. */
  ghost predicate Safe(g: G) {
    && (forall x :: IsRoot(g, x) ==> Alive(g, x))
    && (forall o, x :: Alive(g, o) && Refers(g.heap, o, x) ==> Alive(g, x))
  }

  ghost predicate Inv(g: G) {
    && Linked(g)
    && Safe(g)
    && Colored(g)
    && g.cur in g.heap && g.heap[g.cur].body.Thread?
  }

  /** Nothing the program can reach was freed, or is about to be. */
  lemma ReachableAlive(g: G, strong: bool, x: Id)
    requires Safe(g) && Reachable(g, strong, x)
    ensures Alive(g, x)
  {
    var s := set o | o in g.heap && Alive(g, o);
    ReachableStaysIn(g, strong, s);
  }

  /** Outside the sweep phases nothing is dead. */
  ghost predicate NoneDead(g: G) {
    forall o :: o in g.heap ==> !Dead(g, o)
  }

  lemma TriNoneDead(g: G, uv: bool)
    requires Tri(g, uv, Elems(g.tmudata)) && forall x :: x in g.tmudata ==> Alive(g, x)
    ensures NoneDead(g)
  {
    forall o | o in g.heap
      ensures !Dead(g, o)
    {
      if o !in g.tmudata { assert ObjTri(g, uv, o); }
    }
  }

  lemma SafeNoDangling(g: G)
    requires Safe(g) && NoneDead(g)
    ensures NoDangling(g.heap)
  {
    forall o, x | Refers(g.heap, o, x)
      ensures x in g.heap
    {
      assert Alive(g, o);
    }
  }

  lemma NoDanglingSafe(g: G)
    requires NoDangling(g.heap) && NoneDead(g)
    requires forall x :: IsRoot(g, x) ==> x in g.heap
    ensures Safe(g)
  {
  }

  /** Objects keep their kind; strings, open upvalues and threads keep their contents too. */
  ghost predicate SameLinks(h: Heap, h': Heap) {
    && h'.Keys == h.Keys
    && forall o :: o in h ==>
      && h'[o].fixed == h[o].fixed
      && (h'[o].body == h[o].body
          || (Plain(h[o].body) && Plain(h'[o].body) && (h[o].body.Userdata? <==> h'[o].body.Userdata?))
          || (IsClosed(h[o].body) && IsClosed(h'[o].body)))
  }

  predicate IsClosed(b: Body) {
    b.Upval? && b.loc.Closed?
  }

  predicate Plain(b: Body) {
    !b.String? && !b.Upval? && !b.Thread?
  }

  /** Links are independent of the contents of plain objects and of colours, black open upvalues apart. */
  lemma LinkedSameLinks(g: G, g': G)
    requires Linked(g) && SameLinks(g.heap, g'.heap)
    requires g'.strt == g.strt && g'.uvhead == g.uvhead && g'.rootgc == g.rootgc && g'.tmudata == g.tmudata
             && g'.main == g.main
    requires forall o :: o in g'.heap && IsOpen(g'.heap[o].body) ==> g'.heap[o].color != Black
    ensures Linked(g')
  {
    SameLinksStrings(g.heap, g'.heap, g.strt);
    SameLinksUpvals(g.heap, g'.heap, g.uvhead);
    SameLinksRoots(g.heap, g'.heap, g.rootgc, g.tmudata, g.main);
  }

  lemma SameLinksStrings(h: Heap, h': Heap, strt: seq<seq<Id>>)
    requires SameLinks(h, h') && StringsLinked(h, strt)
    ensures StringsLinked(h', strt)
  {
    assert forall o :: o in h && (h[o].body.String? || h'[o].body.String?) ==> h'[o].body == h[o].body;
  }

  lemma SameLinksRoots(h: Heap, h': Heap, rootgc: seq<Id>, tmudata: seq<Id>, main: Id)
    requires SameLinks(h, h') && RootLinked(h, rootgc, tmudata, main)
    ensures RootLinked(h', rootgc, tmudata, main)
  {
  }

  lemma SameLinksUpvals(h: Heap, h': Heap, uvhead: seq<Id>)
    requires SameLinks(h, h') && UpvalsLinked(h, uvhead)
    requires forall o :: o in h' && IsOpen(h'[o].body) ==> h'[o].color != Black
    ensures UpvalsLinked(h', uvhead)
  {
    hide OpenList;
    forall th | th in h' && h'[th].body.Thread?
      ensures OpenList(h', th, h'[th].body.openupval, |h'[th].body.stack|)
    {
      assert OpenList(h, th, h[th].body.openupval, |h[th].body.stack|);
      SameLinksList(h, h', th);
    }
  }

  lemma SameLinksList(h: Heap, h': Heap, th: Id)
    requires SameLinks(h, h') && th in h && h[th].body.Thread?
             && OpenList(h, th, h[th].body.openupval, |h[th].body.stack|)
    ensures th in h' && h'[th].body == h[th].body && OpenList(h', th, h'[th].body.openupval, |h'[th].body.stack|)
  {
    var l := h[th].body.openupval;
    assert forall uv :: uv in l ==> OpenAt(h, uv, th) && h'[uv].body == h[uv].body;
    assert forall i :: 0 <= i < |l| ==> l[i] in l && Level(h', l[i]) == Level(h, l[i]);
  }

  lemma LinkedSameShape(g: G, g': G)
    requires Linked(g) && SameShape(g.heap, g'.heap)
    requires g'.strt == g.strt && g'.uvhead == g.uvhead && g'.rootgc == g.rootgc && g'.tmudata == g.tmudata
             && g'.main == g.main
    requires forall o :: o in g'.heap && IsOpen(g'.heap[o].body) ==> g'.heap[o].color != Black
    ensures Linked(g')
  {
    hide Linked, SameShape, SameLinks;
    ShapeLinks(g.heap, g'.heap);
    LinkedSameLinks(g, g');
  }

  lemma ShapeLinks(h: Heap, h': Heap)
    requires SameShape(h, h')
    ensures SameLinks(h, h')
  {
  }

  lemma TriOpenNotBlack(g: G, uv: bool)
    requires Tri(g, uv, Elems(g.tmudata)) && forall x :: x in g.tmudata ==> x in g.heap && g.heap[x].body.Userdata?
    ensures forall o :: o in g.heap && IsOpen(g.heap[o].body) ==> g.heap[o].color != Black
  {
    forall o | o in g.heap && IsOpen(g.heap[o].body)
      ensures g.heap[o].color != Black
    {
      assert o !in g.tmudata;
      assert ObjTri(g, uv, o);
    }
  }

  // Parts of the invariant

  lemma LinkedParts(g: G)
    requires Linked(g)
    ensures StringsLinked(g.heap, g.strt) && UpvalsLinked(g.heap, g.uvhead)
            && RootLinked(g.heap, g.rootgc, g.tmudata, g.main)
  {
  }

  lemma LinkedFrom(g: G)
    requires StringsLinked(g.heap, g.strt) && UpvalsLinked(g.heap, g.uvhead)
             && RootLinked(g.heap, g.rootgc, g.tmudata, g.main)
    ensures Linked(g)
  {
  }

  lemma InvParts(g: G)
    requires Inv(g)
    ensures Linked(g) && Safe(g) && Colored(g) && g.cur in g.heap && g.heap[g.cur].body.Thread?
    ensures StringsLinked(g.heap, g.strt) && UpvalsLinked(g.heap, g.uvhead)
            && RootLinked(g.heap, g.rootgc, g.tmudata, g.main)
  {
  }

  lemma InvFrom(g: G)
    requires Linked(g) && Safe(g) && Colored(g) && g.cur in g.heap && g.heap[g.cur].body.Thread?
    ensures Inv(g)
  {
  }

  lemma MarkPhaseFacts(g: G)
    requires Inv(g) && g.phase == Propagate
    ensures Tri(g, false, Elems(g.tmudata)) && NoDangling(g.heap) && NoneDead(g)
    ensures forall x :: x in g.tmudata ==> x in g.heap && g.heap[x].body.Userdata? && !Dead(g, x)
  {
    assert forall x :: x in g.tmudata ==> IsRoot(g, x);
    TriNoneDead(g, false);
    SafeNoDangling(g);
  }

  lemma RootParts(h: Heap, rootgc: seq<Id>, tmudata: seq<Id>, main: Id)
    requires RootLinked(h, rootgc, tmudata, main)
    ensures RootOrder(h, rootgc, tmudata, main) && RootCover(h, rootgc, tmudata, main)
    ensures main in rootgc && main in h && main !in tmudata
  {
  }

  lemma ShapeParts(g: G, g': G)
    requires SameShape(g.heap, g'.heap) && forall x :: x in g.tmudata ==> x in g.heap && g.heap[x].body.Userdata?
    requires g.cur in g.heap && g.heap[g.cur].body.Thread?
    ensures forall x :: x in g.tmudata ==> x in g'.heap && g'.heap[x].body.Userdata?
    ensures g'.heap.Keys == g.heap.Keys && g.cur in g'.heap && g'.heap[g.cur].body.Thread?
  {
  }

  lemma RootsInShape(g: G, g': G)
    requires Safe(g) && SameShape(g.heap, g'.heap)
    requires g'.main == g.main && g'.cur == g.cur && g'.registry == g.registry && g'.mt == g.mt
             && g'.tmudata == g.tmudata
    ensures forall x :: IsRoot(g', x) ==> x in g'.heap
  {
    assert forall x :: IsRoot(g', x) ==> IsRoot(g, x);
  }

  lemma MarkParts(g: G, g': G)
    requires Inv(g) && g.phase == Propagate && KeepsMarks(g.heap, g'.heap)
    requires g' == g.(heap := g'.heap, gray := g'.gray, grayagain := g'.grayagain, weak := g'.weak)
    requires Tri(g', false, Elems(g.tmudata))
    ensures Colored(g')
  {
    hide Tri, Linked, Safe;
  }

  /** A mark-phase step that keeps the tri-colour invariant keeps the whole invariant. */
  lemma MarkStepKeepsInv(g: G, g': G)
    requires Inv(g) && g.phase == Propagate
    requires g' == g.(heap := g'.heap, gray := g'.gray, grayagain := g'.grayagain, weak := g'.weak)
    requires SameShape(g.heap, g'.heap) && KeepsMarks(g.heap, g'.heap)
    requires Tri(g', false, Elems(g.tmudata))
    requires forall x :: x in g.tmudata ==> !Dead(g', x)
    ensures Inv(g')
  {
    hide Inv, Tri, NoDangling, NoneDead, Linked, Safe, SameShape, IsRoot;
    MarkPhaseFacts(g);
    InvParts(g);
    SameShapeNoDangling(g.heap, g'.heap);
    ShapeParts(g, g');
    TriNoneDead(g', false);
    RootsInShape(g, g');
    NoDanglingSafe(g');
    TriOpenNotBlack(g', false);
    LinkedSameShape(g, g');
    MarkParts(g, g');
    InvFrom(g');
  }
}
