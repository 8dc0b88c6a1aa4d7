/** Open upvalues, the string table's size and the other roots: the remaining operations keep the invariant. */
module GcOps {
  import opened GcState
  import opened GcLists
  import opened GcMark
  import opened GcPropagate
  import opened GcInvariant
  import opened GcClose
  import opened GcSweep
  import opened GcMutator
  import opened GcAlloc

  // `luaF_findupval`

  /** A new open upvalue of a slot of `th`, recorded in the thread's list `l`. */
  ghost predicate Opens(h: Heap, h': Heap, th: Id, level: nat, id: Id, white: bool, l: seq<Id>) {
    && th in h && h[th].body.Thread? && level < |h[th].body.stack|
    && id !in h && id in h'
    && h'[id] == Obj(White(white), false, Upval(Open(th, level)))
    && (forall x :: x != id ==> (x in h' <==> x in h))
    && (forall x :: x in h && x != th ==> h'[x] == h[x])
    && h'[th] == h[th].(body := h[th].body.(openupval := l))
  }

  lemma OpensStrings(h: Heap, h': Heap, th: Id, level: nat, id: Id, white: bool, l: seq<Id>, strt: seq<seq<Id>>)
    requires Opens(h, h', th, level, id, white, l) && StringsLinked(h, strt)
    ensures StringsLinked(h', strt)
  {
  }

  lemma OpensRoots(h: Heap, h': Heap, th: Id, level: nat, id: Id, white: bool, l: seq<Id>, rootgc: seq<Id>,
                   tmudata: seq<Id>, main: Id)
    requires Opens(h, h', th, level, id, white, l) && RootLinked(h, rootgc, tmudata, main)
    ensures RootLinked(h', rootgc, tmudata, main)
  {
    hide NoDup, Behind;
  }

  /** The place in the sorted list, where no upvalue has the level yet. */
  ghost predicate FreePlace(h: Heap, l: seq<Id>, level: nat, i: nat) {
    && i <= |l|
    && (forall k :: 0 <= k < i ==> Level(h, l[k]) > level)
    && (forall k :: i <= k < |l| ==> Level(h, l[k]) < level)
  }

  lemma PlaceIsFree(h: Heap, l: seq<Id>, level: nat)
    requires Descending(h, l)
    requires var i := Place(h, l, level); i < |l| ==> Level(h, l[i]) != level
    ensures FreePlace(h, l, level, Place(h, l, level))
  {
  }

  lemma InsertDescending(h: Heap, h': Heap, l: seq<Id>, i: nat, id: Id, level: nat)
    requires Descending(h, l) && FreePlace(h, l, level, i)
    requires Level(h', id) == level && forall x :: x in l ==> Level(h', x) == Level(h, x)
    ensures Descending(h', Insert(l, i, id))
  {
    var s := Insert(l, i, id);
    assert forall k :: 0 <= k < |l| ==> l[k] in l;
    forall j, k | 0 <= j < k < |s|
      ensures Level(h', s[j]) > Level(h', s[k])
    {
      var a, b := if j <= i then j else j - 1, if k <= i then k else k - 1;
      assert s[j] == (if j == i then id else l[a]) && s[k] == if k == i then id else l[b];
    }
  }

  lemma OpensOwnList(h: Heap, h': Heap, th: Id, level: nat, id: Id, white: bool, l: seq<Id>, i: nat)
    requires i <= |l| && Opens(h, h', th, level, id, white, Insert(l, i, id))
    requires OpenList(h, th, l, |h[th].body.stack|) && FreePlace(h, l, level, i)
    ensures OpenList(h', th, Insert(l, i, id), |h'[th].body.stack|)
  {
    assert forall uv :: uv in l ==> OpenAt(h, uv, th);
    InsertElems(l, i, id);
    InsertDescending(h, h', l, i, id, level);
  }

  lemma OpensOtherList(h: Heap, h': Heap, th: Id, level: nat, id: Id, white: bool, l: seq<Id>, t: Id)
    requires Opens(h, h', th, level, id, white, l) && t in h && t != th && h[t].body.Thread?
    requires OpenList(h, t, h[t].body.openupval, |h[t].body.stack|)
    ensures OpenList(h', t, h'[t].body.openupval, |h'[t].body.stack|)
  {
    assert forall uv :: uv in h[t].body.openupval ==> OpenAt(h, uv, t);
    DescendingSame(h, h', h[t].body.openupval);
  }

  lemma OpensUpvals(h: Heap, h': Heap, th: Id, level: nat, id: Id, white: bool, i: nat, uvhead: seq<Id>)
    requires UpvalsLinked(h, uvhead) && th in h && h[th].body.Thread? && FreePlace(h, h[th].body.openupval, level, i)
    requires Opens(h, h', th, level, id, white, Insert(h[th].body.openupval, i, id))
    ensures UpvalsLinked(h', [id] + uvhead)
  {
    hide OpenList, FreePlace, Insert;
    var l := h[th].body.openupval;
    Placed(h, l, level, i);
    InsertElems(l, i, id);
    ConcatNoDup([id], uvhead);
    forall t | t in h' && h'[t].body.Thread?
      ensures OpenList(h', t, h'[t].body.openupval, |h'[t].body.stack|)
    {
      assert OpenList(h, t, h[t].body.openupval, |h[t].body.stack|);
      if t == th {
        OpensOwnList(h, h', th, level, id, white, l, i);
      } else {
        OpensOtherList(h, h', th, level, id, white, Insert(l, i, id), t);
      }
    }
  }

  lemma Placed(h: Heap, l: seq<Id>, level: nat, i: nat)
    requires FreePlace(h, l, level, i)
    ensures i <= |l|
  {
  }

  lemma OpensUpvalValue(h: Heap, h': Heap, th: Id, level: nat, id: Id, white: bool, l: seq<Id>, loc: Loc)
    requires Opens(h, h', th, level, id, white, l) && (loc.Open? ==> loc.th in h)
    ensures UpvalValue(h', loc) == UpvalValue(h, loc)
  {
  }

  lemma OpensSafe(g: G, r: G, th: Id, level: nat, id: Id, l: seq<Id>)
    requires Safe(g) && UpvalsLinked(g.heap, g.uvhead) && Alive(g, th)
    requires Opens(g.heap, r.heap, th, level, id, g.white, l) && r == g.(heap := r.heap, uvhead := r.uvhead)
    ensures Safe(r)
  {
    assert forall x :: IsRoot(r, x) <==> IsRoot(g, x);
    assert forall x :: Alive(g, x) ==> Alive(r, x);
    forall y, x | Alive(r, y) && Refers(r.heap, y, x)
      ensures Alive(r, x)
    {
      if y == id {
        OpensUpvalValue(g.heap, r.heap, th, level, id, g.white, l, Open(th, level));
        assert Refers(g.heap, th, x);
      } else {
        if g.heap[y].body.Upval? { OpensUpvalValue(g.heap, r.heap, th, level, id, g.white, l, g.heap[y].body.loc); }
        assert Refers(g.heap, y, x);
      }
    }
  }

  lemma OpensTri(g: G, r: G, th: Id, level: nat, id: Id, l: seq<Id>, except: set<Id>)
    requires Tri(g, false, except) && UpvalsLinked(g.heap, g.uvhead)
    requires Opens(g.heap, r.heap, th, level, id, g.white, l) && r == g.(heap := r.heap, uvhead := r.uvhead)
    ensures Tri(r, false, except)
  {
    hide SlotsMarked, OpenList;
    assert Pending(r) == Pending(g);
    forall x | x in r.heap && x !in except
      ensures ObjTri(r, false, x)
    {
      if x == th {
        assert ObjTri(g, false, th);
      } else if x != id {
        if g.heap[x].body.Upval? { OpensUpvalValue(g.heap, r.heap, th, level, id, g.white, l, g.heap[x].body.loc); }
        ObjTriKept(g, r, false, x);
      }
    }
  }

  lemma OpensSwept(g: G, r: G, th: Id, level: nat, id: Id, l: seq<Id>, o: Id)
    requires Swept(g, o) && Opens(g.heap, r.heap, th, level, id, g.white, l) && r.white == g.white
    requires forall x :: x in l ==> x == id || x in g.heap[th].body.openupval
    ensures Swept(r, o)
  {
  }

  lemma OpensColored(g: G, r: G, th: Id, level: nat, id: Id, l: seq<Id>)
    requires Colored(g) && UpvalsLinked(g.heap, g.uvhead)
    requires Opens(g.heap, r.heap, th, level, id, g.white, l) && r == g.(heap := r.heap, uvhead := r.uvhead)
    requires forall x :: x in l ==> x == id || x in g.heap[th].body.openupval
    ensures Colored(r)
  {
    hide Tri, OpenList, Swept, UpvalsLinked;
    if g.phase == Propagate { OpensTri(g, r, th, level, id, l, Elems(g.tmudata)); }
    if g.phase == Sweep {
      forall i | 0 <= i < r.sweepgc && i < |r.rootgc|
        ensures Swept(r, r.rootgc[i])
      {
        OpensSwept(g, r, th, level, id, l, g.rootgc[i]);
      }
    }
  }

  lemma OpensKeepsInv(g: G, r: G, th: Id, level: nat, id: Id, i: nat)
    requires Inv(g) && IsThread(g, th) && Alive(g, th) && FreePlace(g.heap, g.heap[th].body.openupval, level, i)
    requires Opens(g.heap, r.heap, th, level, id, g.white, Insert(g.heap[th].body.openupval, i, id))
    requires r == g.(heap := r.heap, uvhead := [id] + g.uvhead)
    ensures Inv(r) && Alive(r, id)
  {
    hide Inv, Linked, Safe, Colored, StringsLinked, UpvalsLinked, RootLinked, FreePlace, Insert;
    InvParts(g);
    var old_ := g.heap[th].body.openupval;
    Placed(g.heap, old_, level, i);
    var l := Insert(old_, i, id);
    InsertElems(old_, i, id);
    OpensStrings(g.heap, r.heap, th, level, id, g.white, l, g.strt);
    OpensUpvals(g.heap, r.heap, th, level, id, g.white, i, g.uvhead);
    OpensRoots(g.heap, r.heap, th, level, id, g.white, l, g.rootgc, g.tmudata, g.main);
    LinkedFrom(r);
    OpensSafe(g, r, th, level, id, l);
    OpensColored(g, r, th, level, id, l);
    InvFrom(r);
  }

  /** What an open upvalue refers to, its thread refers to. */
  lemma OpenRefers(g: G, th: Id, uv: Id)
    requires Safe(g) && Alive(g, th) && OpenAt(g.heap, uv, th)
    ensures forall x :: Refers(g.heap, uv, x) ==> Alive(g, x)
  {
    forall x | Refers(g.heap, uv, x)
      ensures Alive(g, x)
    {
      assert Refers(g.heap, th, x);
    }
  }

  lemma OwnList(g: G, th: Id)
    requires UpvalsLinked(g.heap, g.uvhead) && IsThread(g, th)
    ensures var l := g.heap[th].body.openupval;
            Descending(g.heap, l) && forall uv :: uv in l ==> OpenAt(g.heap, uv, th)
  {
    assert OpenList(g.heap, th, g.heap[th].body.openupval, |g.heap[th].body.stack|);
  }

  /**
    Looking up the upvalue of a stack slot keeps the invariant, reviving an upvalue that the sweep was about to free.
   */
  lemma FindUpvalKeepsInv(g: G, th: Id, level: nat, id: Id)
    requires Inv(g) && Enabled(g, FindUpval(th, level, id))
    ensures Inv(Apply(g, FindUpval(th, level, id)))
  {
    hide Inv, Linked, Safe, Colored, StringsLinked, UpvalsLinked;
    hide RootLinked, Descending, Insert, Reachable, Refers, FreePlace, Level;
    InvParts(g);
    ReachableAlive(g, false, th);
    OwnList(g, th);
    var l := g.heap[th].body.openupval;
    var i := Place(g.heap, l, level);
    if i < |l| && Level(g.heap, l[i]) == level {
      var uv := l[i];
      assert uv in l;
      OpenRefers(g, th, uv);
      if Dead(g, uv) { ResurrectKeepsInv(g, uv); }
      PushKeepsInv(Resurrect(g, uv), Ref(uv));
    } else {
      if i < |l| { assert l[i] in l; }
      PlaceIsFree(g.heap, l, level);
      NewUpvalKeepsInv(g, th, level, id, i);
    }
  }

  lemma NewUpvalKeepsInv(g: G, th: Id, level: nat, id: Id, i: nat)
    requires Inv(g) && IsThread(g, th) && Alive(g, th) && id !in g.heap
             && i == Place(g.heap, g.heap[th].body.openupval, level)
    requires FreePlace(g.heap, g.heap[th].body.openupval, level, i) && level < |g.heap[th].body.stack|
    ensures var l, h := g.heap[th].body.openupval, g.heap[id := Obj(White(g.white), false, Upval(Open(th, level)))];
            var r := g.(heap := Rebody(h, th, g.heap[th].body.(openupval := Insert(l, i, id))),
                        uvhead := [id] + g.uvhead);
            Inv(PushValue(r, Ref(id)))
  {
    hide Inv, Linked, Safe, Colored, StringsLinked, UpvalsLinked;
    hide RootLinked, Descending, Insert, Reachable, Refers, FreePlace, Level;
    var l, h := g.heap[th].body.openupval, g.heap[id := Obj(White(g.white), false, Upval(Open(th, level)))];
    var r := g.(heap := Rebody(h, th, g.heap[th].body.(openupval := Insert(l, i, id))), uvhead := [id] + g.uvhead);
    OpensKeepsInv(g, r, th, level, id, i);
    PushKeepsInv(r, Ref(id));
  }

  // `luaS_resize`

  lemma {:induction false} AllStringsHolds(strt: seq<seq<Id>>, o: Id)
    ensures o in AllStrings(strt) <==> exists j :: 0 <= j < |strt| && o in strt[j]
  {
    if strt != [] {
      AllStringsHolds(strt[1..], o);
      if o in AllStrings(strt) && o !in strt[0] {
        var j :| 0 <= j < |strt[1..]| && o in strt[1..][j];
        assert o in strt[j + 1];
      }
      if j :| 0 <= j < |strt| && o in strt[j] {
        if j > 0 { assert o in strt[1..][j - 1]; }
      }
    }
  }

  lemma {:induction false} AllStringsNoDup(strt: seq<seq<Id>>)
    requires forall j :: 0 <= j < |strt| ==> NoDup(strt[j])
    requires forall i, j, o :: 0 <= i < j < |strt| && o in strt[i] ==> o !in strt[j]
    ensures NoDup(AllStrings(strt))
  {
    if strt != [] {
      var rest := strt[1..];
      assert forall j :: 0 <= j < |rest| ==> rest[j] == strt[j + 1];
      AllStringsNoDup(rest);
      forall o | o in strt[0]
        ensures o !in AllStrings(rest)
      {
        AllStringsHolds(rest, o);
      }
      ConcatNoDup(strt[0], AllStrings(rest));
    }
  }

  predicate InBucket(h: Heap, o: Id, size: nat, j: nat)
    requires size > 0
  {
    o in h && h[o].body.String? && Bucket(h[o].body.text, size) == j
  }

  /** Chaining adds each string of `l` to its bucket, and to no other. */
  lemma {:induction false} ChainHolds(h: Heap, l: seq<Id>, table: seq<seq<Id>>)
    requires |table| > 0 && NoDup(l) && (forall o :: o in l ==> o in h && h[o].body.String?)
    requires forall j :: 0 <= j < |table| ==> NoDup(table[j]) && forall o :: o in table[j] ==> o !in l
    ensures var r := Chain(h, l, table);
            && (forall j :: 0 <= j < |table| ==> NoDup(r[j]))
            && (forall j, o :: 0 <= j < |table| ==>
                                 (o in r[j] <==> o in table[j] || (o in l && InBucket(h, o, |table|, j))))
    decreases |l|
  {
    hide Bucket;
    if l != [] {
      var j := Bucket(h[l[0]].body.text, |table|);
      var t := table[j := [l[0]] + table[j]];
      TailNoDup(l);
      ConcatNoDup([l[0]], table[j]);
      ChainHolds(h, l[1..], t);
      assert l == [l[0]] + l[1..];
    }
  }

  lemma BucketsApart(h: Heap, strt: seq<seq<Id>>)
    requires StringsLinked(h, strt)
    ensures forall i, j, o :: 0 <= i < j < |strt| && o in strt[i] ==> o !in strt[j]
    ensures forall j :: 0 <= j < |strt| ==> NoDup(strt[j])
    ensures forall j, o :: 0 <= j < |strt| && o in strt[j] ==> o in h && h[o].body.String?
  {
    hide NoDup;
    forall i, j, o | 0 <= i < j < |strt| && o in strt[i]
      ensures o !in strt[j]
    {
      assert Bucket(h[o].body.text, |strt|) == i;
    }
  }

  /** A string table whose buckets hold exactly the strings that belong in them. */
  lemma Rechained(h: Heap, strt: seq<seq<Id>>, r: seq<seq<Id>>)
    requires StringsLinked(h, strt) && |r| > 0
    requires forall j :: 0 <= j < |r| ==> NoDup(r[j])
    requires forall j, o :: 0 <= j < |r| ==>
                              (o in r[j] <==> (exists i :: 0 <= i < |strt| && o in strt[i]) && InBucket(h, o, |r|, j))
    ensures StringsLinked(h, r)
  {
    hide Bucket, NoDup;
    forall o | o in h && h[o].body.String?
      ensures o in r[Bucket(h[o].body.text, |r|)]
    {
      assert o in strt[Bucket(h[o].body.text, |strt|)];
    }
  }

  lemma RechainedStrings(h: Heap, strt: seq<seq<Id>>, size: nat)
    requires StringsLinked(h, strt) && size > 0
    ensures var r := Chain(h, AllStrings(strt), seq(size, _ => []));
            && StringsLinked(h, r)
            && forall j, o :: 0 <= j < size && o in r[j] ==> exists i :: 0 <= i < |strt| && o in strt[i]
  {
    hide Bucket, NoDup, StringsLinked, InBucket;
    var empty: seq<seq<Id>> := seq(size, _ => []);
    var l := AllStrings(strt);
    BucketsApart(h, strt);
    forall o
      ensures o in l <==> exists j :: 0 <= j < |strt| && o in strt[j]
    {
      AllStringsHolds(strt, o);
    }
    AllStringsNoDup(strt);
    EmptyNoDup(empty);
    ChainHolds(h, l, empty);
    Rechained(h, strt, Chain(h, l, empty));
  }

  lemma EmptyNoDup(table: seq<seq<Id>>)
    requires forall j :: 0 <= j < |table| ==> table[j] == []
    ensures forall j :: 0 <= j < |table| ==> NoDup(table[j])
  {
  }

  lemma ResizeKeepsInv(g: G, size: nat)
    requires Inv(g) && size > 0
    ensures Inv(Resize(g, size))
  {
    hide Inv, Linked, Safe, StringsLinked, UpvalsLinked, RootLinked, Tri, ListSwept, Chain, AllStrings;
    InvParts(g);
    if g.phase != SweepString {
      RechainedStrings(g.heap, g.strt, size);
      var r := Resize(g, size);
      LinkedFrom(r);
      SafeSame(g, r);
      if g.phase == Sweep {
        assert forall j, o :: 0 <= j < |g.strt| && o in g.strt[j] ==> g.heap[o].color == White(g.white);
        assert StringsSwept(r, |r.strt|);
        ListSweptSame(g, r, g.sweepgc);
      }
      if g.phase == Propagate { TriSame(g, r); }
      InvFrom(r);
    }
  }

  lemma SafeSame(g: G, r: G)
    requires Safe(g) && r.heap == g.heap && r.white == g.white
             && forall x :: IsRoot(r, x) ==> IsRoot(g, x) || Alive(g, x)
    ensures Safe(r)
  {
    assert forall x :: Alive(r, x) <==> Alive(g, x);
  }

  lemma ListSweptSame(g: G, r: G, n: nat)
    requires ListSwept(g, n) && r.heap == g.heap && r.white == g.white && r.rootgc == g.rootgc
    ensures ListSwept(r, n)
  {
    forall i | 0 <= i < n && i < |r.rootgc|
      ensures Swept(r, r.rootgc[i])
    {
      assert Swept(g, g.rootgc[i]);
    }
  }

  lemma TriSame(g: G, r: G)
    requires Tri(g, false, Elems(g.tmudata))
    requires r.heap == g.heap && r.white == g.white && r.tmudata == g.tmudata && r.gray == g.gray
             && r.grayagain == g.grayagain && r.weak == g.weak
    ensures Tri(r, false, Elems(r.tmudata))
  {
    assert Pending(r) == Pending(g);
    forall o | o in r.heap && o !in Elems(r.tmudata)
      ensures ObjTri(r, false, o)
    {
      assert ObjTri(g, false, o);
    }
  }

  // Basic metatables, the running thread, and reserved words

  /** Roots may change to any live object. */
  lemma RootsKeepInv(g: G, r: G)
    requires Inv(g) && r == g.(mt := r.mt, cur := r.cur) && IsThread(r, r.cur)
    requires forall x :: IsRoot(r, x) ==> IsRoot(g, x) || Alive(g, x)
    ensures Inv(r)
  {
    hide Inv, Linked, Safe, StringsLinked, UpvalsLinked, RootLinked, Tri, ListSwept, StringsSwept;
    InvParts(g);
    LinkedFrom(r);
    SafeSame(g, r);
    if g.phase == Sweep { ListSweptSame(g, r, g.sweepgc); StringsSweptSame(g, r, |g.strt|); }
    if g.phase == SweepString { StringsSweptSame(g, r, g.sweepstrgc); }
    if g.phase == Propagate { TriSame(g, r); }
    InvFrom(r);
  }

  lemma StringsSweptSame(g: G, r: G, n: nat)
    requires StringsSwept(g, n) && r.heap == g.heap && r.white == g.white && r.strt == g.strt
    ensures StringsSwept(r, n)
  {
  }

  /** `luaS_fix` changes no more than the fixed bit of a string. */
  ghost predicate Fixes(h: Heap, h': Heap, o: Id) {
    o in h && h[o].body.String? && h' == h[o := h[o].(fixed := true)]
  }

  lemma FixLinked(h: Heap, h': Heap, o: Id, strt: seq<seq<Id>>, uvhead: seq<Id>)
    requires Fixes(h, h', o) && StringsLinked(h, strt) && UpvalsLinked(h, uvhead)
    ensures StringsLinked(h', strt) && UpvalsLinked(h', uvhead)
  {
    forall t | t in h' && h'[t].body.Thread?
      ensures OpenList(h', t, h'[t].body.openupval, |h'[t].body.stack|)
    {
      var l := h[t].body.openupval;
      assert OpenList(h, t, l, |h[t].body.stack|);
      assert forall uv :: uv in l ==> OpenAt(h, uv, t);
      DescendingSame(h, h', l);
    }
  }

  lemma FixRoots(h: Heap, h': Heap, o: Id, rootgc: seq<Id>, tmudata: seq<Id>, main: Id)
    requires Fixes(h, h', o) && RootLinked(h, rootgc, tmudata, main)
    ensures RootLinked(h', rootgc, tmudata, main)
  {
    hide NoDup, Behind;
  }

  lemma FixSafe(g: G, r: G, o: Id)
    requires Safe(g) && Fixes(g.heap, r.heap, o) && r == g.(heap := r.heap)
    ensures Safe(r)
  {
    assert forall x :: Alive(r, x) <==> Alive(g, x);
    assert forall x :: IsRoot(r, x) <==> IsRoot(g, x);
    forall y, x | Alive(r, y) && Refers(r.heap, y, x)
      ensures Alive(r, x)
    {
      assert Refers(g.heap, y, x);
    }
  }

  lemma FixTri(g: G, r: G, o: Id)
    requires Tri(g, false, Elems(g.tmudata)) && Fixes(g.heap, r.heap, o) && r == g.(heap := r.heap)
    ensures Tri(r, false, Elems(g.tmudata))
  {
    hide SlotsMarked;
    assert Pending(r) == Pending(g);
    forall x | x in r.heap && x !in Elems(g.tmudata)
      ensures ObjTri(r, false, x)
    {
      if x != o { ObjTriKept(g, r, false, x); } else { assert ObjTri(g, false, o); }
    }
  }

  lemma FixSwept(g: G, r: G, o: Id, n: nat)
    requires ListSwept(g, n) && Fixes(g.heap, r.heap, o) && r == g.(heap := r.heap)
    ensures ListSwept(r, n)
  {
    forall i | 0 <= i < n && i < |r.rootgc|
      ensures Swept(r, r.rootgc[i])
    {
      assert Swept(g, g.rootgc[i]);
    }
  }

  lemma FixKeepsInv(g: G, r: G, o: Id)
    requires Inv(g) && Fixes(g.heap, r.heap, o) && r == g.(heap := r.heap)
    ensures Inv(r)
  {
    hide Inv, Linked, Safe, StringsLinked, UpvalsLinked, RootLinked, Tri, ListSwept;
    InvParts(g);
    FixLinked(g.heap, r.heap, o, g.strt, g.uvhead);
    FixRoots(g.heap, r.heap, o, g.rootgc, g.tmudata, g.main);
    LinkedFrom(r);
    FixSafe(g, r, o);
    if g.phase == Sweep { FixSwept(g, r, o, g.sweepgc); }
    if g.phase == Propagate { FixTri(g, r, o); }
    InvFrom(r);
  }

  /** Every operation of the program keeps the invariant, in every phase of the collector. */
  lemma ApplyKeepsInv(g: G, op: Op)
    requires Inv(g) && Enabled(g, op)
    ensures Inv(Apply(g, op))
  {
    hide Inv, Reachable, Chain, AllStrings;
    assert Safe(g) by { InvParts(g); }
    match op
    case New(id, body) => NewKeepsInv(g, id, body);
    case Intern(id, text) => InternKeepsInv(g, id, text);
    case Write(o, body, v) => WriteKeepsInv(g, o, body, v);
    case SetStack(th, gt, stack) => SetStackKeepsInv(g, th, gt, stack);
    case SetUpval(uv, v) => SetUpvalKeepsInv(g, uv, v);
    case FindUpval(th, level, id) => FindUpvalKeepsInv(g, th, level, id);
    case CloseUpvals(th, level) => CloseKeepsInv(g, th, level);
    case SetBasicMetatable(i, v) =>
      UsableAlive(g, v);
      assert IsThread(g, g.cur) by { InvParts(g); }
      RootsKeepInv(g, Apply(g, op));
    case Resume(th) =>
      ReachableAlive(g, false, th);
      RootsKeepInv(g, Apply(g, op));
    case FixString(o) => FixKeepsInv(g, Apply(g, op), o);
    case ResizeStrings(size) => ResizeKeepsInv(g, size);
  }
}
