/** Closing an upvalue keeps the invariant, in every phase and for live and dead threads alike. */
module GcClose {
  import opened GcState
  import opened GcLists
  import opened GcMark
  import opened GcPropagate
  import opened GcInvariant
  import opened GcUpval

  /** Contents after closing (or freeing) the first open upvalue `uv` of `th`, marking aside. */
  ghost predicate ClosedContents(h: Heap, h': Heap, th: Id, uv: Id) {
    && th in h && h[th].body.Thread? && h[th].body.openupval != [] && uv == h[th].body.openupval[0] && uv != th
    && uv in h && IsOpen(h[uv].body)
    && (forall x :: x != uv ==> (x in h' <==> x in h))
    && (forall x :: x in h' && x in h ==> h'[x].fixed == h[x].fixed)
    && (forall x :: x in h && x != uv && x != th ==> h'[x].body == h[x].body)
    && h'[th].body == h[th].body.(openupval := h[th].body.openupval[1..])
    && (uv in h' ==> h'[uv].body == Upval(Closed(UpvalValue(h, h[uv].body.loc))))
  }

  lemma CloseUpvalValues(h: Heap, h': Heap, th: Id, uv: Id, loc: Loc)
    requires ClosedContents(h, h', th, uv)
    ensures UpvalValue(h', loc) == UpvalValue(h, loc)
  {
  }

  /** Closing moves no reference: the upvalue keeps denoting the same value. */
  lemma CloseRefers(h: Heap, h': Heap, th: Id, uv: Id)
    requires ClosedContents(h, h', th, uv)
    ensures forall o, x :: Refers(h', o, x) ==> Refers(h, o, x)
  {
    forall o, x | Refers(h', o, x)
      ensures Refers(h, o, x)
    {
      if o != uv && h[o].body.Upval? { CloseUpvalValues(h, h', th, uv, h[o].body.loc); }
    }
  }

  lemma CloseStrings(h: Heap, h': Heap, th: Id, uv: Id, strt: seq<seq<Id>>)
    requires ClosedContents(h, h', th, uv) && StringsLinked(h, strt)
    ensures StringsLinked(h', strt)
  {
    hide Bucket, NoDup;
    assert forall o :: o in h && h[o].body.String? ==> o != uv && o != th && o in h' && h'[o].body == h[o].body;
    assert forall o :: o in h' && h'[o].body.String? ==> o in h && h[o].body == h'[o].body;
  }

  lemma CloseOpenList(h: Heap, h': Heap, th: Id, uv: Id, t: Id)
    requires ClosedContents(h, h', th, uv) && t in h && h[t].body.Thread?
    requires OpenList(h, t, h[t].body.openupval, |h[t].body.stack|)
    requires OpenList(h, th, h[th].body.openupval, |h[th].body.stack|)
    ensures OpenList(h', t, h'[t].body.openupval, |h'[t].body.stack|)
  {
    hide Descending;
    var l := h[t].body.openupval;
    assert uv in h[th].body.openupval;
    if t == th {
      FirstLeaves(h, l);
      SameOpenList(h, h', t, l[1..], |h[t].body.stack|);
    } else {
      SameOpenList(h, h', t, l, |h[t].body.stack|);
    }
  }

  lemma FirstLeaves(h: Heap, l: seq<Id>)
    requires l != [] && Descending(h, l)
    ensures Descending(h, l[1..]) && l[0] !in l[1..]
  {
    assert forall i :: 0 <= i < |l| - 1 ==> l[1..][i] == l[i + 1];
  }

  lemma SameOpenList(h: Heap, h': Heap, t: Id, l: seq<Id>, size: nat)
    requires OpenList(h, t, l, size) && forall x :: x in l ==> x in h' && h'[x].body == h[x].body
    ensures OpenList(h', t, l, size)
  {
  }

  lemma CloseUpvals(h: Heap, h': Heap, th: Id, uv: Id, uvhead: seq<Id>)
    requires ClosedContents(h, h', th, uv) && UpvalsLinked(h, uvhead)
    requires forall o :: o in h' && IsOpen(h'[o].body) ==> h'[o].color != Black
    ensures UpvalsLinked(h', Without(uvhead, uv))
  {
    WithoutNoDup(uvhead, uv);
    forall t | t in h' && h'[t].body.Thread?
      ensures OpenList(h', t, h'[t].body.openupval, |h'[t].body.stack|)
    {
      CloseOpenList(h, h', th, uv, t);
    }
    forall x | x in h' && IsOpen(h'[x].body)
      ensures var t := h'[x].body.loc.th; t in h' && h'[t].body.Thread? && x in h'[t].body.openupval
    {
      assert x != uv && x != th && h'[x].body == h[x].body;
      var t := h[x].body.loc.th;
      assert t != uv;
      if t == th {
        var l := h[th].body.openupval;
        assert l == [l[0]] + l[1..];
      }
    }
  }

  lemma CloseRoots(h: Heap, h': Heap, th: Id, uv: Id, rootgc: seq<Id>, tmudata: seq<Id>, main: Id)
    requires ClosedContents(h, h', th, uv) && RootLinked(h, rootgc, tmudata, main)
    ensures uv !in h' ==> RootLinked(h', rootgc, tmudata, main)
    ensures uv in h' ==> RootLinked(h', [uv] + rootgc, tmudata, main)
  {
    if uv in h' {
      assert Insert(rootgc, 0, uv) == [uv] + rootgc;
      RootInsert(h, h', rootgc, tmudata, main, 0, uv);
    }
  }

  /** Nothing alive is freed and no reference is added, so the heap stays safe. */
  ghost predicate Collects(g: G, g': G) {
    && g'.white == g.white
    && (forall x :: IsRoot(g', x) ==> IsRoot(g, x))
    && (forall o :: Alive(g, o) ==> Alive(g', o))
    && (forall o, x :: Refers(g'.heap, o, x) ==> Refers(g.heap, o, x))
    && (forall o :: Alive(g', o) && !Alive(g, o) ==> g'.heap[o].body.String?)
  }

  lemma CollectsSafe(g: G, g': G)
    requires Safe(g) && Collects(g, g')
    ensures Safe(g')
  {
    forall o, x | Alive(g', o) && Refers(g'.heap, o, x)
      ensures Alive(g', x)
    {
      assert Alive(g, o);
    }
  }

  /** The state right after closing, before `luaC_linkupval` recolours the upvalue. */
  function Closing(g: G, th: Id): G
    requires th in g.heap && g.heap[th].body.Thread? && g.heap[th].body.openupval != []
  {
    var uv := g.heap[th].body.openupval[0];
    var r := Unlink(g, th);
    if uv in g.heap && g.heap[uv].body.Upval? && uv != th then
      r.(heap := Rebody(r.heap, uv, Upval(Closed(UpvalValue(g.heap, g.heap[uv].body.loc)))))
    else r
  }

  lemma FirstOpen(g: G, th: Id)
    requires UpvalsLinked(g.heap, g.uvhead) && OpenUpvals(g.heap, th) != []
    ensures var uv := g.heap[th].body.openupval[0];
            && uv in g.heap && IsOpen(g.heap[uv].body) && uv != th && g.heap[uv].color != Black
            && g.heap[uv].body.loc.th == th && Level(g.heap, uv) < |g.heap[th].body.stack|
  {
    var uv := g.heap[th].body.openupval[0];
    assert OpenList(g.heap, th, g.heap[th].body.openupval, |g.heap[th].body.stack|);
    assert uv in g.heap[th].body.openupval;
  }

  lemma ClosingContents(g: G, th: Id)
    requires UpvalsLinked(g.heap, g.uvhead) && OpenUpvals(g.heap, th) != []
    ensures var uv := g.heap[th].body.openupval[0];
            && ClosedContents(g.heap, Closing(g, th).heap, th, uv)
            && ClosedContents(g.heap, Unlink(g, th).heap - {uv}, th, uv)
  {
    FirstOpen(g, th);
  }

  /** Same contents, other colours. */
  lemma ContentsRecolored(h: Heap, c: Heap, r: Heap, th: Id, uv: Id)
    requires ClosedContents(h, c, th, uv) && SameButColor(c, r)
    ensures ClosedContents(h, r, th, uv)
  {
  }

  /** What closing the first upvalue comes to, before recolouring. */
  lemma CloseFirstIs(g: G, th: Id)
    requires UpvalsLinked(g.heap, g.uvhead) && OpenUpvals(g.heap, th) != []
    ensures var uv := g.heap[th].body.openupval[0];
            && uv in g.heap && uv in Closing(g, th).heap && Closing(g, th).heap[uv].body.Upval?
            && CloseFirst(g, th) == if Dead(g, uv) then Unlink(g, th).(heap := Unlink(g, th).heap - {uv})
                                    else LinkUpval(Closing(g, th), uv)
  {
    FirstOpen(g, th);
  }

  lemma CloseFirstLinked(g: G, th: Id, r: G)
    requires Linked(g) && OpenUpvals(g.heap, th) != []
    requires var uv := g.heap[th].body.openupval[0];
             && ClosedContents(g.heap, r.heap, th, uv)
             && r.strt == g.strt && r.uvhead == Without(g.uvhead, uv) && r.tmudata == g.tmudata && r.main == g.main
             && r.rootgc == (if uv in r.heap then [uv] + g.rootgc else g.rootgc)
    requires forall o :: o in r.heap && IsOpen(r.heap[o].body) ==> r.heap[o].color != Black
    ensures Linked(r)
  {
    hide StringsLinked, UpvalsLinked, RootLinked, ClosedContents;
    var uv := g.heap[th].body.openupval[0];
    CloseStrings(g.heap, r.heap, th, uv, g.strt);
    CloseUpvals(g.heap, r.heap, th, uv, g.uvhead);
    CloseRoots(g.heap, r.heap, th, uv, g.rootgc, g.tmudata, g.main);
  }

  /** Closing outside the mark phase: a dead upvalue is freed, another gets the current white. */
  ghost predicate ClosesSweeping(g: G, r: G, th: Id, uv: Id) {
    && ClosedContents(g.heap, r.heap, th, uv)
    && g.heap[uv].color != Black
    && (uv in r.heap <==> !Dead(g, uv))
    && (uv in r.heap ==> r.heap[uv].color == White(g.white))
    && (forall o :: o in g.heap && o != uv ==> r.heap[o].color == g.heap[o].color)
    && r == g.(heap := r.heap, uvhead := Without(g.uvhead, uv),
               rootgc := if uv in r.heap then [uv] + g.rootgc else g.rootgc,
               sweepgc := if uv in r.heap && g.sweepgc > 0 then g.sweepgc + 1 else g.sweepgc)
  }

  lemma ContentsIs(h: Heap, h': Heap, th: Id, uv: Id)
    requires ClosedContents(h, h', th, uv)
    ensures uv in h && th in h' && forall x :: x != uv ==> (x in h' <==> x in h)
  {
  }

  /** `luaC_linkupval` outside the mark phase. */
  lemma LinkSweeping(g: G, uv: Id)
    requires uv in g.heap && g.heap[uv].body.Upval? && g.phase != Propagate
    requires g.heap[uv].color == Gray || g.heap[uv].color == White(g.white)
    ensures var r := LinkUpval(g, uv);
            && SameButColor(g.heap, r.heap) && r.heap == Paint(g.heap, uv, White(g.white))
            && r == g.(heap := r.heap, rootgc := [uv] + g.rootgc,
                       sweepgc := if g.sweepgc > 0 then g.sweepgc + 1 else g.sweepgc)
  {
    assert Insert(g.rootgc, 0, uv) == [uv] + g.rootgc;
  }

  lemma CloseFirstSweeps(g: G, th: Id)
    requires UpvalsLinked(g.heap, g.uvhead) && OpenUpvals(g.heap, th) != [] && g.phase != Propagate
    ensures ClosesSweeping(g, CloseFirst(g, th), th, g.heap[th].body.openupval[0])
  {
    hide UpvalsLinked, Without, CloseFirst, ClosedContents, LinkUpval;
    var uv := g.heap[th].body.openupval[0];
    FirstOpen(g, th);
    CloseFirstIs(g, th);
    ClosingContents(g, th);
    ContentsIs(g.heap, Unlink(g, th).heap - {uv}, th, uv);
    if !Dead(g, uv) {
      LinkSweeping(Closing(g, th), uv);
      ContentsRecolored(g.heap, Closing(g, th).heap, CloseFirst(g, th).heap, th, uv);
      ContentsIs(g.heap, CloseFirst(g, th).heap, th, uv);
    }
  }

  lemma SweptStays(g: G, r: G, o: Id)
    requires Swept(g, o) && o in r.heap && r.white == g.white
    requires r.heap[o].color == g.heap[o].color && (r.heap[o].body.Thread? <==> g.heap[o].body.Thread?)
    requires r.heap[o].body.Thread? ==> forall uv :: uv in r.heap[o].body.openupval ==>
               uv in g.heap[o].body.openupval && uv in r.heap && r.heap[uv].color == g.heap[uv].color
    ensures Swept(r, o)
  {
  }

  lemma CloseKeepsSwept(g: G, r: G, th: Id, uv: Id, o: Id)
    requires Swept(g, o) && o != uv && UpvalsLinked(g.heap, g.uvhead) && ClosesSweeping(g, r, th, uv)
    ensures Swept(r, o)
  {
    if g.heap[o].body.Thread? {
      CloseOpenList(g.heap, r.heap, th, uv, o);
      var l, l' := g.heap[o].body.openupval, r.heap[o].body.openupval;
      forall x | x in l'
        ensures x in l && x in r.heap && r.heap[x].color == g.heap[x].color
      {
        assert OpenAt(r.heap, x, o);
        assert x != uv;
      }
      hide OpenList, UpvalsLinked, ClosedContents;
      SweptStays(g, r, o);
    }
  }

  lemma CloseListSwept(g: G, r: G, th: Id, uv: Id)
    requires UpvalsLinked(g.heap, g.uvhead) && ClosesSweeping(g, r, th, uv) && uv !in g.rootgc
    requires ListSwept(g, g.sweepgc)
    ensures ListSwept(r, r.sweepgc)
  {
    hide UpvalsLinked, Swept;
    forall i | 0 <= i < r.sweepgc && i < |r.rootgc|
      ensures Swept(r, r.rootgc[i])
    {
      if uv in r.heap && i == 0 {
        assert Swept(r, uv) by { SweptClosed(r, uv); }
      } else {
        var j := if uv in r.heap then i - 1 else i;
        assert r.rootgc[i] == g.rootgc[j] && g.rootgc[j] in g.rootgc;
        assert Swept(g, g.rootgc[j]);
        CloseKeepsSwept(g, r, th, uv, g.rootgc[j]);
      }
    }
  }

  lemma SweptClosed(r: G, uv: Id)
    requires uv in r.heap && r.heap[uv].color == White(r.white) && !r.heap[uv].body.Thread?
    ensures Swept(r, uv)
  {
  }

  lemma CloseStringsSwept(g: G, r: G, th: Id, uv: Id, n: nat)
    requires StringsLinked(g.heap, g.strt) && StringsSwept(g, n) && ClosesSweeping(g, r, th, uv)
    ensures StringsSwept(r, n)
  {
    forall j, o | 0 <= j < n && j < |r.strt| && o in r.strt[j]
      ensures o in r.heap && r.heap[o].color == White(r.white)
    {
      assert o in g.heap && o != uv;
    }
  }

  lemma CloseAllWhite(g: G, r: G, th: Id, uv: Id)
    requires AllWhite(g) && ClosesSweeping(g, r, th, uv)
    ensures AllWhite(r)
  {
  }

  /** Closing keeps the sweep invariants: a closed upvalue joins the part of the list already swept. */
  lemma CloseColored(g: G, r: G, th: Id, uv: Id)
    requires Linked(g) && Colored(g) && g.phase != Propagate && ClosesSweeping(g, r, th, uv)
    ensures Colored(r)
  {
    assert uv !in g.rootgc;
    hide StringsLinked, UpvalsLinked, RootLinked, ListSwept, ClosedContents, StringsSwept, AllWhite;
    match g.phase
    case SweepString => CloseStringsSwept(g, r, th, uv, g.sweepstrgc);
    case Sweep =>
      CloseListSwept(g, r, th, uv);
      CloseStringsSwept(g, r, th, uv, |g.strt|);
    case _ => CloseAllWhite(g, r, th, uv);
  }

  lemma CloseCollects(g: G, r: G, th: Id, uv: Id)
    requires ClosesSweeping(g, r, th, uv)
    ensures Collects(g, r)
  {
    CloseRefers(g.heap, r.heap, th, uv);
  }

  lemma ClosesNotBlack(g: G, r: G, th: Id, uv: Id)
    requires UpvalsLinked(g.heap, g.uvhead) && ClosesSweeping(g, r, th, uv)
    ensures forall o :: o in r.heap && IsOpen(r.heap[o].body) ==> r.heap[o].color != Black
  {
  }

  lemma CloseFirstSweep(g: G, th: Id)
    requires Inv(g) && g.phase != Propagate && OpenUpvals(g.heap, th) != []
    ensures Inv(CloseFirst(g, th))
  {
    var uv := g.heap[th].body.openupval[0];
    var r := CloseFirst(g, th);
    CloseFirstSweeps(g, th);
    CloseColored(g, r, th, uv);
    CloseCollects(g, r, th, uv);
    CollectsSafe(g, r);
    ClosesNotBlack(g, r, th, uv);
    hide Safe, Colored, Collects, CloseFirst, StringsLinked, UpvalsLinked, RootLinked;
    CloseFirstLinked(g, th, r);
  }

  // Closing in the mark phase

  /** The closed upvalue, linked and given colour `c`, before its barrier. */
  function Linking(g: G, th: Id, c: Color): G
    requires UpvalsLinked(g.heap, g.uvhead) && OpenUpvals(g.heap, th) != []
  {
    var uv := g.heap[th].body.openupval[0];
    FirstOpen(g, th);
    InsertAt(Closing(g, th), 0, uv).(heap := Paint(Closing(g, th).heap, uv, c))
  }

  lemma LinkingContents(g: G, th: Id, c: Color)
    requires UpvalsLinked(g.heap, g.uvhead) && OpenUpvals(g.heap, th) != []
    ensures ClosedContents(g.heap, Linking(g, th, c).heap, th, g.heap[th].body.openupval[0])
    ensures var uv, p := g.heap[th].body.openupval[0], Linking(g, th, c);
            && uv in p.heap && p.heap[uv].color == c
            && (forall o :: o in g.heap && o != uv ==> o in p.heap && p.heap[o].color == g.heap[o].color)
            && p == g.(heap := p.heap, uvhead := Without(g.uvhead, uv), rootgc := [uv] + g.rootgc, sweepgc := p.sweepgc)
  {
    FirstOpen(g, th);
    ClosingContents(g, th);
    var uv := g.heap[th].body.openupval[0];
    assert Insert(g.rootgc, 0, uv) == [uv] + g.rootgc;
  }

  lemma LinkingTri(g: G, th: Id, c: Color)
    requires UpvalsLinked(g.heap, g.uvhead) && OpenUpvals(g.heap, th) != []
    requires Tri(g, false, Elems(g.tmudata)) && th !in g.tmudata
    requires var uv := g.heap[th].body.openupval[0]; uv in g.heap && (g.heap[uv].color.White? || !c.White?)
    ensures Tri(Linking(g, th, c), false, Elems(g.tmudata) + {g.heap[th].body.openupval[0]})
  {
    var uv, p := g.heap[th].body.openupval[0], Linking(g, th, c);
    FirstOpen(g, th);
    LinkingContents(g, th, c);
    assert Pending(p) == Pending(g);
    assert uv !in Pending(g);
    forall o | o in p.heap && o !in g.tmudata && o != uv
      ensures ObjTri(p, false, o)
    {
      assert ObjTri(g, false, o);
      if o != th {
        if g.heap[o].body.Upval? { CloseUpvalValues(g.heap, p.heap, th, uv, g.heap[o].body.loc); }
        ObjTriKept(g, p, false, o);
      }
    }
  }

  lemma CloseFirstMarks(g: G, th: Id)
    requires UpvalsLinked(g.heap, g.uvhead) && OpenUpvals(g.heap, th) != [] && g.phase == Propagate
    requires var uv := g.heap[th].body.openupval[0]; uv in g.heap && !Dead(g, uv)
    ensures var uv := g.heap[th].body.openupval[0];
            uv in g.heap && IsOpen(g.heap[uv].body) &&
            var v := UpvalValue(g.heap, g.heap[uv].body.loc);
            CloseFirst(g, th) ==
              if g.heap[uv].color.White? then Linking(g, th, g.heap[uv].color)
              else Put(Linking(g, th, Black), MarkValue(Mk(Linking(g, th, Black)), v))
  {
    var uv := g.heap[th].body.openupval[0];
    FirstOpen(g, th);
    ClosingContents(g, th);
    CloseFirstIs(g, th);
  }

  /** Closing in the mark phase: the invariant holds again, with the value of a black upvalue marked. */
  ghost predicate ClosesMarking(g: G, r: G, th: Id, uv: Id, except: set<Id>) {
    && Tri(r, false, except) && NoDangling(r.heap)
    && ClosedContents(g.heap, r.heap, th, uv) && uv in r.heap
    && KeepsMarks(g.heap, r.heap)
    && r == g.(heap := r.heap, gray := r.gray, uvhead := Without(g.uvhead, uv), rootgc := [uv] + g.rootgc,
               sweepgc := r.sweepgc)
    && (forall o :: o in g.tmudata && o in g.heap && o in r.heap ==>
                      r.heap[o].color == g.heap[o].color || !r.heap[o].color.White?)
  }

  lemma LinkingMarking(g: G, th: Id, c: Color)
    requires UpvalsLinked(g.heap, g.uvhead) && OpenUpvals(g.heap, th) != []
    requires Tri(g, false, Elems(g.tmudata)) && NoDangling(g.heap) && th !in g.tmudata
    requires var uv := g.heap[th].body.openupval[0];
             uv in g.heap && uv !in g.tmudata && c == if g.heap[uv].color.White? then g.heap[uv].color else Black
    ensures var uv := g.heap[th].body.openupval[0];
            ClosesMarking(g, Linking(g, th, c), th, uv, Elems(g.tmudata) + {uv})
  {
    hide Linking, ClosedContents, Tri, UpvalsLinked;
    var uv := g.heap[th].body.openupval[0];
    FirstOpen(g, th);
    LinkingContents(g, th, c);
    LinkingTri(g, th, c);
    CloseRefers(g.heap, Linking(g, th, c).heap, th, uv);
  }

  lemma UpvalInHeap(h: Heap, uv: Id)
    requires NoDangling(h) && uv in h && h[uv].body.Upval? && h[uv].body.loc.Closed?
    ensures h[uv].body.loc.v.Ref? ==> h[uv].body.loc.v.id in h
  {
    if h[uv].body.loc.v.Ref? { assert Refers(h, uv, h[uv].body.loc.v.id); }
  }

  lemma MarksParts(m: Marker, m': Marker)
    requires Marks(m, m')
    ensures SameButColor(m.heap, m'.heap) && KeepsMarks(m.heap, m'.heap)
    ensures forall o :: o in m.heap && !m.heap[o].color.White? ==> m'.heap[o].color == m.heap[o].color
    ensures forall o :: o in m.heap ==> m'.heap[o].color == m.heap[o].color || !m'.heap[o].color.White?
  {
  }

  lemma KeepsMarksTransitive(a: Heap, b: Heap, c: Heap)
    requires KeepsMarks(a, b) && KeepsMarks(b, c)
    ensures KeepsMarks(a, c)
  {
  }

  lemma ClosedUpvalTri(g: G, uv: Id, except: set<Id>)
    requires Tri(g, false, except + {uv}) && uv in g.heap && g.heap[uv].color == Black
    requires IsClosed(g.heap[uv].body) && Marked(g.heap, g.heap[uv].body.loc.v)
    ensures Tri(g, false, except)
  {
    hide ListsOk;
    assert ObjTri(g, false, uv);
  }

  lemma MarkClosed(g: G, p: G, th: Id, uv: Id, v: Value)
    requires ClosesMarking(g, p, th, uv, Elems(g.tmudata) + {uv}) && p.heap[uv].color == Black
    requires IsClosed(p.heap[uv].body) && v == p.heap[uv].body.loc.v
    ensures ClosesMarking(g, Put(p, MarkValue(Mk(p), v)), th, uv, Elems(g.tmudata))
  {
    hide Tri, NoDangling, ClosedContents, Marks, KeepsMarks;
    var m := MarkValue(Mk(p), v);
    UpvalInHeap(p.heap, uv);
    MarkValueMarks(Mk(p), v);
    MarksKeepTri(p, false, Elems(g.tmudata) + {uv}, m);
    MarksParts(Mk(p), m);
    NoDanglingSame(p.heap, m.heap);
    ContentsRecolored(g.heap, p.heap, m.heap, th, uv);
    KeepsMarksTransitive(g.heap, p.heap, m.heap);
    ClosedUpvalTri(Put(p, m), uv, Elems(g.tmudata));
  }

  lemma CloseTri(g: G, th: Id)
    requires UpvalsLinked(g.heap, g.uvhead) && OpenUpvals(g.heap, th) != [] && g.phase == Propagate
    requires Tri(g, false, Elems(g.tmudata)) && NoDangling(g.heap) && th !in g.tmudata
    requires var uv := g.heap[th].body.openupval[0]; uv in g.heap && !Dead(g, uv) && uv !in g.tmudata
    ensures ClosesMarking(g, CloseFirst(g, th), th, g.heap[th].body.openupval[0], Elems(g.tmudata))
  {
    var uv := g.heap[th].body.openupval[0];
    FirstOpen(g, th);
    var c := if g.heap[uv].color.White? then g.heap[uv].color else Black;
    CloseFirstMarks(g, th);
    LinkingContents(g, th, c);
    LinkingMarking(g, th, c);
    var p := Linking(g, th, c);
    assert p.heap[uv].body == Upval(Closed(UpvalValue(g.heap, g.heap[uv].body.loc)));
    hide NoDangling, Linking, CloseFirst, ListsOk, ClosedContents, UpvalsLinked;
    if c == Black {
      MarkClosed(g, p, th, uv, UpvalValue(g.heap, g.heap[uv].body.loc));
    } else {
      assert ObjTri(p, false, uv);
    }
  }

  lemma TmudataUserdata(g: G)
    requires Linked(g)
    ensures forall x :: x in g.tmudata ==> x in g.heap && g.heap[x].body.Userdata?
  {
  }

  lemma ClosesSafe(g: G, r: G, th: Id, uv: Id)
    requires ClosesMarking(g, r, th, uv, Elems(g.tmudata)) && Linked(g) && Safe(g)
    ensures Safe(r) && forall x :: x in r.tmudata ==> x in r.heap && r.heap[x].body.Userdata?
  {
    hide Tri, Linked, NoDangling;
    assert forall x :: x in g.tmudata ==> IsRoot(g, x);
    TmudataUserdata(g);
    TriNoneDead(r, false);
    assert forall x :: IsRoot(r, x) ==> IsRoot(g, x) && Alive(g, x);
    NoDanglingSafe(r);
  }

  lemma CloseMarksLinked(g: G, r: G, th: Id, uv: Id)
    requires Linked(g) && OpenUpvals(g.heap, th) != [] && uv == g.heap[th].body.openupval[0]
    requires ClosesMarking(g, r, th, uv, Elems(g.tmudata))
    requires forall x :: x in r.tmudata ==> x in r.heap && r.heap[x].body.Userdata?
    ensures Linked(r)
  {
    hide Tri, Linked, NoDangling, ClosedContents;
    TriOpenNotBlack(r, false);
    CloseFirstLinked(g, th, r);
  }

  lemma CloseFirstMark(g: G, th: Id)
    requires Inv(g) && g.phase == Propagate && OpenUpvals(g.heap, th) != []
    ensures Inv(CloseFirst(g, th))
  {
    hide CloseFirst, Tri, NoDangling, Safe, Linked;
    var uv := g.heap[th].body.openupval[0];
    var r := CloseFirst(g, th);
    MarkPhaseFacts(g);
    assert UpvalsLinked(g.heap, g.uvhead) by { LinkedParts(g); }
    FirstOpen(g, th);
    hide UpvalsLinked;
    CloseTri(g, th);
    ClosesSafe(g, r, th, uv);
    CloseMarksLinked(g, r, th, uv);
  }

  /** `luaF_close` keeps the invariant. */
  lemma {:induction false} CloseKeepsInv(g: G, th: Id, level: nat)
    requires Inv(g)
    ensures Inv(Close(g, th, level))
    decreases |OpenUpvals(g.heap, th)|
  {
    var l := OpenUpvals(g.heap, th);
    if l != [] && Level(g.heap, l[0]) >= level {
      if g.phase == Propagate { CloseFirstMark(g, th); } else { CloseFirstSweep(g, th); }
      CloseFirstShrinks(g, th);
      CloseKeepsInv(CloseFirst(g, th), th, level);
    }
  }
}
