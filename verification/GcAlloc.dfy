/** New objects, interned strings and new open upvalues keep the invariant. */
module GcAlloc {
  import opened GcState
  import opened GcLists
  import opened GcMark
  import opened GcPropagate
  import opened GcInvariant
  import opened GcUpval
  import opened GcSweep
  import opened GcMutator

  /** One new object with the current white; another object's body may record it. */
  ghost predicate Adds(h: Heap, h': Heap, id: Id, white: bool) {
    && id !in h && id in h'
    && h'[id].color == White(white) && !h'[id].fixed
    && (forall x :: x != id ==> (x in h' <==> x in h))
    && (forall x :: x in h ==> h'[x] == h[x])
  }

  lemma AddUpvalValue(h: Heap, h': Heap, id: Id, white: bool, loc: Loc)
    requires Adds(h, h', id, white) && (loc.Open? ==> loc.th in h)
    ensures UpvalValue(h', loc) == UpvalValue(h, loc)
  {
  }

  lemma AddSafe(g: G, r: G, id: Id)
    requires Safe(g) && UpvalsLinked(g.heap, g.uvhead) && Adds(g.heap, r.heap, id, g.white) && r.white == g.white
    requires forall x :: IsRoot(r, x) ==> IsRoot(g, x)
    requires forall x :: Sees(r.heap, r.heap[id].body, x) ==> Alive(g, x)
    ensures Safe(r)
  {
    assert forall x :: Alive(g, x) ==> Alive(r, x);
    forall y, x | Alive(r, y) && Refers(r.heap, y, x)
      ensures Alive(r, x)
    {
      if y != id {
        if g.heap[y].body.Upval? { AddUpvalValue(g.heap, r.heap, id, g.white, g.heap[y].body.loc); }
        assert Refers(g.heap, y, x);
      }
    }
  }

  lemma AddTri(g: G, r: G, id: Id, except: set<Id>)
    requires Tri(g, false, except) && UpvalsLinked(g.heap, g.uvhead) && Adds(g.heap, r.heap, id, g.white)
    requires r.white == g.white && r.gray == g.gray && r.grayagain == g.grayagain && r.weak == g.weak
    ensures Tri(r, false, except)
  {
    hide SlotsMarked, OpenList;
    assert Pending(r) == Pending(g);
    forall x | x in r.heap && x !in except
      ensures ObjTri(r, false, x)
    {
      if x != id {
        if g.heap[x].body.Upval? { AddUpvalValue(g.heap, r.heap, id, g.white, g.heap[x].body.loc); }
        ObjTriKept(g, r, false, x);
      }
    }
  }

  lemma AddSwept(g: G, r: G, id: Id, o: Id)
    requires Swept(g, o) && Adds(g.heap, r.heap, id, g.white) && r.white == g.white
    ensures Swept(r, o)
  {
  }

  /** Phases other than sweep only need the colour of the new object. */
  lemma AddColored(g: G, r: G, id: Id)
    requires Colored(g) && UpvalsLinked(g.heap, g.uvhead) && Adds(g.heap, r.heap, id, g.white)
    requires r.white == g.white && r.gray == g.gray && r.grayagain == g.grayagain && r.weak == g.weak
    requires r.phase == g.phase && r.sweepstrgc == g.sweepstrgc && r.tmudata == g.tmudata && r.main == g.main
             && r.registry == g.registry
    requires |r.strt| == |g.strt| && forall j, o :: 0 <= j < |r.strt| && o in r.strt[j] ==> o == id || o in g.strt[j]
    requires g.phase == SweepString ==> r.sweepgc == g.sweepgc
    requires g.phase == Sweep ==> r.sweepgc <= |r.rootgc| && ListSwept(r, r.sweepgc)
    ensures Colored(r)
  {
    hide Tri, OpenList, Swept, UpvalsLinked;
    if g.phase == Propagate { AddTri(g, r, id, Elems(g.tmudata)); }
  }

  // `luaC_link`

  lemma LinkIs(g: G, id: Id, body: Body)
    requires g.main in g.rootgc && id !in g.heap
    ensures var r := Link(g, id, body);
            var k := if body.Userdata? then IndexOf(g.rootgc, g.main) + 1 else 0;
            && Adds(g.heap, r.heap, id, g.white) && r.heap[id].body == body
            && r == g.(heap := r.heap, rootgc := Insert(g.rootgc, k, id),
                       sweepgc := if g.sweepgc > k then g.sweepgc + 1 else g.sweepgc)
  {
  }

  lemma InsertSwept(g: G, r: G, id: Id, k: nat)
    requires ListSwept(g, g.sweepgc) && g.sweepgc <= |g.rootgc| && Adds(g.heap, r.heap, id, g.white) && k <= |g.rootgc|
    requires r.heap[id].body.Thread? ==> r.heap[id].body.openupval == []
    requires r == g.(heap := r.heap, rootgc := Insert(g.rootgc, k, id),
                     sweepgc := if g.sweepgc > k then g.sweepgc + 1 else g.sweepgc)
    ensures r.sweepgc <= |r.rootgc| && ListSwept(r, r.sweepgc)
  {
    forall i | 0 <= i < r.sweepgc && i < |r.rootgc|
      ensures Swept(r, r.rootgc[i])
    {
      assert r.rootgc[i] == if i < k then g.rootgc[i] else if i == k then id else g.rootgc[i - 1];
      if i != k {
        assert Swept(g, g.rootgc[if i < k then i else i - 1]);
        AddSwept(g, r, id, r.rootgc[i]);
      }
    }
  }

  lemma LinkUpvals(h: Heap, h': Heap, uvhead: seq<Id>, id: Id, white: bool)
    requires UpvalsLinked(h, uvhead) && Adds(h, h', id, white) && !IsOpen(h'[id].body)
    requires h'[id].body.Thread? ==> h'[id].body.openupval == []
    ensures UpvalsLinked(h', uvhead)
  {
    forall t | t in h' && h'[t].body.Thread?
      ensures OpenList(h', t, h'[t].body.openupval, |h'[t].body.stack|)
    {
      if t != id {
        var l := h[t].body.openupval;
        assert OpenList(h, t, l, |h[t].body.stack|);
        assert forall uv :: uv in l ==> OpenAt(h, uv, t);
        DescendingSame(h, h', l);
      }
    }
  }

  lemma LinkStrings(h: Heap, h': Heap, strt: seq<seq<Id>>, id: Id, white: bool)
    requires StringsLinked(h, strt) && Adds(h, h', id, white) && !h'[id].body.String?
    ensures StringsLinked(h', strt)
  {
  }

  lemma NotLinked(h: Heap, rootgc: seq<Id>, tmudata: seq<Id>, main: Id, id: Id)
    requires RootLinked(h, rootgc, tmudata, main) && id !in h
    ensures id !in rootgc && id !in tmudata && main in rootgc
  {
  }

  lemma LinkLinked(g: G, id: Id, body: Body)
    requires Linked(g) && id !in g.heap && !body.String? && !IsOpen(body) && (body.Thread? ==> body.openupval == [])
    ensures g.main in g.rootgc && Linked(Link(g, id, body))
  {
    hide Linked, StringsLinked, UpvalsLinked, RootLinked, Link, Insert, IndexOf;
    LinkedParts(g);
    NotLinked(g.heap, g.rootgc, g.tmudata, g.main, id);
    LinkIs(g, id, body);
    var r := Link(g, id, body);
    LinkStrings(g.heap, r.heap, g.strt, id, g.white);
    LinkUpvals(g.heap, r.heap, g.uvhead, id, g.white);
    RootInsert(g.heap, r.heap, g.rootgc, g.tmudata, g.main,
               if body.Userdata? then IndexOf(g.rootgc, g.main) + 1 else 0, id);
    LinkedFrom(r);
  }

  lemma SweepList(g: G)
    requires Colored(g)
    ensures g.phase == Sweep ==> g.sweepgc <= |g.rootgc| && ListSwept(g, g.sweepgc)
    ensures g.phase == SweepString ==> g.sweepgc == 0
  {
  }

  /** Allocation keeps the invariant: in a sweep the new object lands where the sweep has been. */
  lemma NewKeepsInv(g: G, id: Id, body: Body)
    requires Inv(g) && Enabled(g, New(id, body))
    ensures Inv(Apply(g, New(id, body)))
  {
    hide Inv, Linked, Safe, Colored, StringsLinked, UpvalsLinked;
    hide RootLinked, Link, Insert, IndexOf, ListSwept, Sees, Reachable;
    InvParts(g);
    LinkLinked(g, id, body);
    LinkIs(g, id, body);
    var r := Link(g, id, body);
    var k := if body.Userdata? then IndexOf(g.rootgc, g.main) + 1 else 0;
    forall x | Sees(r.heap, body, x)
      ensures Alive(g, x)
    {
      NewSees(g, r, id, x);
      ReachableAlive(g, false, x);
    }
    AddSafe(g, r, id);
    SweepList(g);
    if g.phase == Sweep { InsertSwept(g, r, id, k); }
    AddColored(g, r, id);
    InvFrom(r);
    PushKeepsInv(r, Ref(id));
  }

  lemma NewSees(g: G, r: G, id: Id, x: Id)
    requires Adds(g.heap, r.heap, id, g.white) && !IsOpen(r.heap[id].body) && Sees(r.heap, r.heap[id].body, x)
    ensures Sees(g.heap, r.heap[id].body, x)
  {
  }

  // `luaS_newlstr`

  lemma ResurrectKeepsInv(g: G, o: Id)
    requires Inv(g) && Dead(g, o) && (g.heap[o].body.String? || IsOpen(g.heap[o].body))
    requires forall x :: Refers(g.heap, o, x) ==> Alive(g, x)
    ensures Inv(Resurrect(g, o))
  {
    hide Inv, Linked, Safe, Colored, StringsLinked, UpvalsLinked, RootLinked;
    InvParts(g);
    var r := Resurrect(g, o);
    WhitenLinked(g, o);
    ResurrectSafe(g, o);
    ResurrectColored(g, o);
    InvFrom(r);
  }

  lemma ResurrectSafe(g: G, o: Id)
    requires Safe(g) && Dead(g, o) && forall x :: Refers(g.heap, o, x) ==> Alive(g, x)
    ensures Safe(Resurrect(g, o))
  {
    var r := Resurrect(g, o);
    PaintRefers(g, o, White(g.white));
    assert forall x :: Alive(r, x) <==> Alive(g, x) || x == o;
    assert forall x :: IsRoot(r, x) <==> IsRoot(g, x);
  }

  lemma ResurrectColored(g: G, o: Id)
    requires Inv(g) && Dead(g, o)
    ensures Colored(Resurrect(g, o))
  {
    var r := Resurrect(g, o);
    if g.phase == Propagate {
      MarkPhaseFacts(g);
      assert false;
    } else if g.phase == Sweep {
      forall i | 0 <= i < g.sweepgc && i < |g.rootgc|
        ensures Swept(r, r.rootgc[i])
      {
        assert Swept(g, g.rootgc[i]);
      }
    }
  }

  lemma InternStrings(h: Heap, h': Heap, strt: seq<seq<Id>>, id: Id, white: bool)
    requires StringsLinked(h, strt) && Adds(h, h', id, white) && h'[id].body.String?
    requires FindText(h, strt[Bucket(h'[id].body.text, |strt|)], h'[id].body.text) == []
    ensures var j := Bucket(h'[id].body.text, |strt|);
            StringsLinked(h', strt[j := [id] + strt[j]])
  {
    var text := h'[id].body.text;
    var j := Bucket(text, |strt|);
    var s := strt[j := [id] + strt[j]];
    ConcatNoDup([id], strt[j]);
    forall q | q in h && h[q].body.String?
      ensures h[q].body.text != text
    {
      assert q in strt[Bucket(h[q].body.text, |strt|)];
    }
    forall o | o in h' && h'[o].body.String?
      ensures o in s[Bucket(h'[o].body.text, |s|)]
    {
      if o != id { assert o in strt[Bucket(h[o].body.text, |strt|)]; }
    }
  }

  lemma InternRoots(h: Heap, h': Heap, rootgc: seq<Id>, tmudata: seq<Id>, main: Id, id: Id, white: bool)
    requires RootLinked(h, rootgc, tmudata, main) && Adds(h, h', id, white)
             && (h'[id].body.String? || IsOpen(h'[id].body))
    ensures RootLinked(h', rootgc, tmudata, main)
  {
    hide NoDup, Behind;
  }

  lemma InternNewKeepsInv(g: G, id: Id, text: seq<bv8>)
    requires Inv(g) && id !in g.heap && |g.strt| > 0
    requires FindText(g.heap, g.strt[Bucket(text, |g.strt|)], text) == []
    ensures var j := Bucket(text, |g.strt|);
            var r := g.(heap := g.heap[id := Obj(White(g.white), false, String(text))],
                        strt := g.strt[j := [id] + g.strt[j]]);
            Inv(r) && Alive(r, id)
  {
    hide Inv, Linked, Safe, Colored, StringsLinked, UpvalsLinked, RootLinked, Bucket, FindText, ListSwept;
    InvParts(g);
    var j := Bucket(text, |g.strt|);
    var r := g.(heap := g.heap[id := Obj(White(g.white), false, String(text))], strt := g.strt[j := [id] + g.strt[j]]);
    assert Adds(g.heap, r.heap, id, g.white);
    InternStrings(g.heap, r.heap, g.strt, id, g.white);
    InternLinked(g, r, id);
    AddSafe(g, r, id);
    InternColored(g, r, id);
    InvFrom(r);
  }

  lemma InternLinked(g: G, r: G, id: Id)
    requires Inv(g) && Adds(g.heap, r.heap, id, g.white) && r == g.(heap := r.heap, strt := r.strt)
    requires StringsLinked(r.heap, r.strt) && r.heap[id].body.String?
    ensures Linked(r)
  {
    hide Inv, Linked, StringsLinked, UpvalsLinked, RootLinked, Adds;
    InvParts(g);
    LinkUpvals(g.heap, r.heap, g.uvhead, id, g.white);
    InternRoots(g.heap, r.heap, g.rootgc, g.tmudata, g.main, id, g.white);
    LinkedFrom(r);
  }

  lemma InternColored(g: G, r: G, id: Id)
    requires Inv(g) && Adds(g.heap, r.heap, id, g.white) && r == g.(heap := r.heap, strt := r.strt)
    requires |r.strt| == |g.strt| && forall j, o :: 0 <= j < |r.strt| && o in r.strt[j] ==> o == id || o in g.strt[j]
    ensures Colored(r)
  {
    hide Linked, Safe, Colored, Adds, ListSwept;
    InvParts(g);
    SweepList(g);
    if g.phase == Sweep { ListSweptGrows(g, r, id, g.sweepgc); }
    AddColored(g, r, id);
  }

  lemma ListSweptGrows(g: G, r: G, id: Id, n: nat)
    requires ListSwept(g, n) && Adds(g.heap, r.heap, id, g.white) && r.white == g.white && r.rootgc == g.rootgc
    ensures ListSwept(r, n)
  {
    forall i | 0 <= i < n && i < |r.rootgc|
      ensures Swept(r, r.rootgc[i])
    {
      AddSwept(g, r, id, g.rootgc[i]);
    }
  }

  /** Interning keeps the invariant, even when it revives a string that the sweep was about to free. */
  lemma InternKeepsInv(g: G, id: Id, text: seq<bv8>)
    requires Inv(g) && Enabled(g, Intern(id, text))
    ensures Inv(Apply(g, Intern(id, text)))
  {
    hide Inv, Linked, Safe, Colored, StringsLinked, UpvalsLinked, RootLinked, Bucket, FindText;
    InvParts(g);
    assert |g.strt| > 0 by { SomeBucket(g); }
    var j := Bucket(text, |g.strt|);
    var found := FindText(g.heap, g.strt[j], text);
    if found != [] {
      var o := found[0];
      if Dead(g, o) { ResurrectKeepsInv(g, o); }
      PushKeepsInv(Resurrect(g, o), Ref(o));
    } else {
      InternNewKeepsInv(g, id, text);
      PushKeepsInv(g.(heap := g.heap[id := Obj(White(g.white), false, String(text))],
                      strt := g.strt[j := [id] + g.strt[j]]), Ref(id));
    }
  }

  lemma SomeBucket(g: G)
    requires StringsLinked(g.heap, g.strt)
    ensures |g.strt| > 0
  {
  }
}
