/** `sweeplist`, and the collector's step function. */
module GcSweep {
  import opened GcState
  import opened GcLists
  import opened GcMark
  import opened GcPropagate
  import opened GcInvariant
  import opened GcUpval
  import opened GcClose
  import opened GcCycle

  const GCSWEEPMAX: nat := 40

  /** The object is dead and not fixed, so the sweep frees it. */
  predicate Dies(g: G, o: Id) {
    Dead(g, o) && !g.heap[o].fixed
  }

  /** Sweeping the list `l`: what dies is freed, the rest becomes white for the next cycle. */
  function SweptHeap(g: G, l: seq<Id>): Heap {
    map o | o in g.heap && !(o in l && Dies(g, o)) :: if o in l then g.heap[o].(color := White(g.white)) else g.heap[o]
  }

  function Survivors(g: G, l: seq<Id>): (r: seq<Id>)
    ensures forall x :: x in r <==> x in l && !Dies(g, x)
  {
    if l == [] then [] else (if Dies(g, l[0]) then [] else [l[0]]) + Survivors(g, l[1..])
  }

  /** One list of the string table. */
  function SweepBucket(g: G, j: nat): G
    requires j < |g.strt|
  {
    g.(heap := SweptHeap(g, g.strt[j]), strt := g.strt[j := Survivors(g, g.strt[j])])
  }

  /** The open upvalues of a thread. */
  function SweepUpvals(g: G, th: Id): G
    requires th in g.heap && g.heap[th].body.Thread? && th !in g.heap[th].body.openupval
  {
    var l := g.heap[th].body.openupval;
    g.(heap := Rebody(SweptHeap(g, l), th, g.heap[th].body.(openupval := Survivors(g, l))),
       uvhead := KeepOpen(g, l, g.uvhead))
  }

  /** `uvhead` without the freed upvalues of `l`. */
  function KeepOpen(g: G, l: seq<Id>, uvs: seq<Id>): (r: seq<Id>)
    ensures forall x :: x in r <==> x in uvs && !(x in l && Dies(g, x))
  {
    if uvs == [] then [] else (if uvs[0] in l && Dies(g, uvs[0]) then [] else [uvs[0]]) + KeepOpen(g, l, uvs[1..])
  }

  /** `freeobj`, with the object taken out of the root list; a thread closes its upvalues first. */
  function FreeObj(g: G, o: Id): G {
    var c := Close(g, o, 0);
    c.(heap := c.heap - {o}, rootgc := Without(c.rootgc, o))
  }

  predicate CanSweep(g: G) {
    && g.sweepgc < |g.rootgc| && g.rootgc[g.sweepgc] in g.heap
    && (g.heap[g.rootgc[g.sweepgc]].body.Thread? ==> g.rootgc[g.sweepgc] !in g.heap[g.rootgc[g.sweepgc]].body.openupval)
  }

  /** The object under the sweep pointer is freed, or kept as white. */
  function KeepOrFree(g: G): G
    requires g.sweepgc < |g.rootgc| && g.rootgc[g.sweepgc] in g.heap
  {
    var o := g.rootgc[g.sweepgc];
    if Dies(g, o) then FreeObj(g, o)
    else g.(heap := Paint(g.heap, o, White(g.white)), sweepgc := g.sweepgc + 1)
  }

  /** One turn of the loop of `sweeplist` on the root list. */
  function SweepOne(g: G): G
    requires CanSweep(g)
  {
    var o := g.rootgc[g.sweepgc];
    KeepOrFree(if g.heap[o].body.Thread? then SweepUpvals(g, o) else g)
  }

  function SweepSome(g: G, n: nat): G
    decreases n
  {
    if n == 0 || !CanSweep(g) then g else SweepSome(SweepOne(g), n - 1)
  }

  /** `GCTM`, up to the call of the finalizer: the userdata returns to the root list. */
  function TakeUdata(g: G): G
    requires g.tmudata != [] && g.tmudata[0] in g.heap && g.main in g.rootgc
  {
    var u := g.tmudata[0];
    InsertAt(g.(tmudata := g.tmudata[1..], heap := Paint(g.heap, u, White(g.white))), IndexOf(g.rootgc, g.main) + 1, u)
  }

  /** `singlestep`. */
  function SingleStep(g: G): G {
    match g.phase
    case Pause => MarkRoot(g)
    case Propagate =>
      if g.gray == [] then Atomic(g)
      else if g.gray[0] in g.heap && Traversable(g.heap[g.gray[0]].body) then PropagateMark(g)
      else g
    case SweepString =>
      if g.sweepstrgc < |g.strt| then
        SweepBucket(g, g.sweepstrgc).(sweepstrgc := g.sweepstrgc + 1,
                                      phase := if g.sweepstrgc + 1 >= |g.strt| then Sweep else SweepString)
      else g
    case Sweep =>
      var r := SweepSome(g, GCSWEEPMAX);
      if r.sweepgc >= |r.rootgc| then r.(phase := Finalize) else r
    case Finalize =>
      if g.tmudata != [] then (if g.tmudata[0] in g.heap && g.main in g.rootgc then TakeUdata(g) else g)
      else g.(phase := Pause)
  }

  // Sweeping strings

  lemma {:induction false} SurvivorsNoDup(g: G, l: seq<Id>)
    requires NoDup(l)
    ensures NoDup(Survivors(g, l))
  {
    if l != [] {
      SurvivorsNoDup(g, l[1..]);
      assert l[0] !in l[1..];
      ConcatNoDup(if Dies(g, l[0]) then [] else [l[0]], Survivors(g, l[1..]));
    }
  }

  lemma {:induction false} KeepOpenNoDup(g: G, l: seq<Id>, uvs: seq<Id>)
    requires NoDup(uvs)
    ensures NoDup(KeepOpen(g, l, uvs))
  {
    if uvs != [] {
      KeepOpenNoDup(g, l, uvs[1..]);
      assert uvs[0] !in uvs[1..];
      ConcatNoDup(if uvs[0] in l && Dies(g, uvs[0]) then [] else [uvs[0]], KeepOpen(g, l, uvs[1..]));
    }
  }

  /** Freed objects are of one kind, the others keep their contents. */
  ghost predicate Frees(h: Heap, h': Heap, strings: bool) {
    && (forall o :: o in h' ==> o in h && h'[o].body == h[o].body && h'[o].fixed == h[o].fixed)
    && (forall o :: o in h && o !in h' ==> if strings then h[o].body.String? else Plain(h[o].body))
  }

  lemma FreesStringsUpvals(h: Heap, h': Heap, uvhead: seq<Id>)
    requires Frees(h, h', true) && UpvalsLinked(h, uvhead)
    requires forall o :: o in h' && IsOpen(h'[o].body) ==> h'[o].color != Black
    ensures UpvalsLinked(h', uvhead)
  {
    forall t | t in h' && h'[t].body.Thread?
      ensures OpenList(h', t, h'[t].body.openupval, |h'[t].body.stack|)
    {
      assert OpenList(h, t, h[t].body.openupval, |h[t].body.stack|);
      assert forall uv :: uv in h[t].body.openupval ==> OpenAt(h, uv, t);
    }
  }

  lemma FreesStringsRoots(h: Heap, h': Heap, rootgc: seq<Id>, tmudata: seq<Id>, main: Id)
    requires Frees(h, h', true) && RootLinked(h, rootgc, tmudata, main)
    ensures RootLinked(h', rootgc, tmudata, main)
  {
  }

  lemma SweepBucketStrings(g: G, j: nat)
    requires StringsLinked(g.heap, g.strt) && j < |g.strt|
    ensures StringsLinked(SweepBucket(g, j).heap, SweepBucket(g, j).strt)
    ensures Frees(g.heap, SweepBucket(g, j).heap, true)
  {
    var r := SweepBucket(g, j);
    SurvivorsNoDup(g, g.strt[j]);
    forall k, o | 0 <= k < |r.strt| && o in r.strt[k]
      ensures o in r.heap && r.heap[o].body.String? && Bucket(r.heap[o].body.text, |r.strt|) == k
    {
      assert o in g.strt[k];
    }
    forall o | o in r.heap && r.heap[o].body.String?
      ensures o in r.strt[Bucket(r.heap[o].body.text, |r.strt|)]
    {
      var k := Bucket(g.heap[o].body.text, |g.strt|);
      assert o in g.strt[k];
    }
  }

  /** Colours after sweeping a list: white on the list, unchanged elsewhere. */
  lemma SweptHeapColors(g: G, l: seq<Id>)
    ensures forall o :: o in SweptHeap(g, l) ==>
                          SweptHeap(g, l)[o].color == if o in l then White(g.white) else g.heap[o].color
    ensures forall o :: o in g.heap && !(o in l && Dies(g, o)) ==> o in SweptHeap(g, l)
  {
  }

  lemma SweepBucketRefers(g: G, j: nat)
    requires j < |g.strt| && Frees(g.heap, SweepBucket(g, j).heap, true)
    ensures forall o, x :: Refers(SweepBucket(g, j).heap, o, x) ==> Refers(g.heap, o, x)
  {
    var r := SweepBucket(g, j);
    forall o, x | Refers(r.heap, o, x)
      ensures Refers(g.heap, o, x)
    {
      if r.heap[o].body.Upval? { SweptUpvalValue(g, r, r.heap[o].body.loc); }
    }
  }

  lemma SweepBucketCollects(g: G, j: nat)
    requires j < |g.strt| && Frees(g.heap, SweepBucket(g, j).heap, true)
    requires forall o :: o in g.strt[j] ==> o in g.heap && g.heap[o].body.String?
    ensures Collects(g, SweepBucket(g, j))
  {
    SweepBucketRefers(g, j);
    SweptHeapColors(g, g.strt[j]);
    hide Refers, Survivors;
  }

  lemma SweptUpvalValue(g: G, r: G, loc: Loc)
    requires Frees(g.heap, r.heap, true)
    ensures UpvalValue(r.heap, loc) == UpvalValue(g.heap, loc)
  {
  }

  lemma SweepBucketLinked(g: G, j: nat)
    requires Linked(g) && j < |g.strt|
    ensures Linked(SweepBucket(g, j)) && Frees(g.heap, SweepBucket(g, j).heap, true)
  {
    var b := SweepBucket(g, j);
    OpenNotBlack(g.heap, g.uvhead);
    SweptHeapColors(g, g.strt[j]);
    SweepBucketStrings(g, j);
    assert forall o :: o in b.heap && IsOpen(b.heap[o].body) ==> b.heap[o].color != Black;
    hide StringsLinked, SweptHeap, SweepBucket, UpvalsLinked, RootLinked, Frees;
    FreesStringsUpvals(g.heap, b.heap, g.uvhead);
    FreesStringsRoots(g.heap, b.heap, g.rootgc, g.tmudata, g.main);
  }

  lemma SweepStringParts(g: G)
    requires Inv(g) && g.phase == SweepString
    ensures Linked(g) && Safe(g) && g.sweepstrgc < |g.strt| && g.sweepgc == 0 && StringsSwept(g, g.sweepstrgc)
    ensures StringsLinked(g.heap, g.strt)
    ensures forall o :: o in g.strt[g.sweepstrgc] ==> o in g.heap && g.heap[o].body.String?
    ensures g.cur in g.heap && g.heap[g.cur].body.Thread?
  {
    hide UpvalsLinked, RootLinked, Safe, Bucket, NoDup;
  }

  lemma LinkedRephase(g: G, r: G)
    requires Linked(g) && r == g.(phase := r.phase, sweepstrgc := r.sweepstrgc)
    ensures Linked(r)
  {
  }

  /** A step of the string sweep keeps the invariant. */
  lemma SweepStringKeepsInv(g: G)
    requires Inv(g) && g.phase == SweepString
    ensures Inv(SingleStep(g))
  {
    hide Linked, Safe, StringsLinked, SweepBucket, Collects, Frees;
    var j := g.sweepstrgc;
    SweepStringParts(g);
    var b := SweepBucket(g, j);
    StringsSweptNext(g, j);
    SweepBucketLinked(g, j);
    SweepBucketCollects(g, j);
    CollectsSafe(g, b);
    SweepBucketFrame(g, j);
    SafeRephase(b, SingleStep(g));
    LinkedRephase(b, SingleStep(g));
  }

  lemma SweepBucketFrame(g: G, j: nat)
    requires j < |g.strt| && Frees(g.heap, SweepBucket(g, j).heap, true)
    requires g.cur in g.heap && g.heap[g.cur].body.Thread?
    ensures var b := SweepBucket(g, j);
            && b == g.(heap := b.heap, strt := b.strt) && |b.strt| == |g.strt|
            && g.cur in b.heap && b.heap[g.cur].body.Thread?
  {
  }

  lemma SafeRephase(g: G, r: G)
    requires Safe(g) && r == g.(phase := r.phase, sweepstrgc := r.sweepstrgc)
    ensures Safe(r)
  {
    assert forall x :: IsRoot(r, x) <==> IsRoot(g, x);
    assert forall x :: Alive(r, x) <==> Alive(g, x);
  }

  lemma StringsSweptNext(g: G, j: nat)
    requires j < |g.strt| && StringsSwept(g, j) && StringsLinked(g.heap, g.strt)
    ensures StringsSwept(SweepBucket(g, j), j + 1)
  {
    var b := SweepBucket(g, j);
    forall k, o | 0 <= k < j + 1 && o in b.strt[k]
      ensures o in b.heap && b.heap[o].color == White(b.white)
    {
      assert o in g.strt[k];
    }
  }

  // Sweeping the open upvalues of a thread

  /** The effect of sweeping the open upvalues of `th`. */
  ghost predicate SweepsUpvals(g: G, r: G, th: Id) {
    && th in g.heap && g.heap[th].body.Thread?
    && var l := g.heap[th].body.openupval;
    && th !in l
    && r == g.(heap := r.heap, uvhead := KeepOpen(g, l, g.uvhead))
    && (forall o :: o in r.heap <==> o in g.heap && !(o in l && Dies(g, o)))
    && (forall o :: o in r.heap ==>
          && r.heap[o].fixed == g.heap[o].fixed
          && r.heap[o].color == (if o in l then White(g.white) else g.heap[o].color)
          && r.heap[o].body == if o == th then g.heap[th].body.(openupval := Survivors(g, l)) else g.heap[o].body)
  }

  lemma SweepUpvalsIs(g: G, th: Id)
    requires UpvalsLinked(g.heap, g.uvhead) && th in g.heap && g.heap[th].body.Thread?
    ensures th !in g.heap[th].body.openupval && SweepsUpvals(g, SweepUpvals(g, th), th)
  {
    assert OpenList(g.heap, th, g.heap[th].body.openupval, |g.heap[th].body.stack|);
    assert th !in g.heap[th].body.openupval;
    hide UpvalsLinked, OpenList, Survivors, KeepOpen;
  }

  lemma {:induction false} SurvivorsDescend(g: G, h: Heap, l: seq<Id>)
    requires Descending(h, l)
    ensures Descending(h, Survivors(g, l))
  {
    if l != [] {
      var t := Survivors(g, l[1..]);
      SurvivorsDescend(g, h, l[1..]);
      forall j | 0 <= j < |t|
        ensures Level(h, l[0]) > Level(h, t[j])
      {
        assert t[j] in t && t[j] in l[1..];
        var k :| 0 <= k < |l[1..]| && l[1..][k] == t[j];
        assert Level(h, l[0]) > Level(h, l[k + 1]);
      }
      if !Dies(g, l[0]) { DescendingCons(h, l[0], t); }
    }
  }

  lemma DescendingCons(h: Heap, x: Id, t: seq<Id>)
    requires Descending(h, t) && forall j :: 0 <= j < |t| ==> Level(h, x) > Level(h, t[j])
    ensures Descending(h, [x] + t)
  {
    var s := [x] + t;
    forall i, j | 0 <= i < j < |s|
      ensures Level(h, s[i]) > Level(h, s[j])
    {
      assert s[j] == t[j - 1];
      if i > 0 { assert s[i] == t[i - 1]; }
    }
  }

  lemma DescendingSame(h: Heap, h': Heap, l: seq<Id>)
    requires Descending(h, l) && forall x :: x in l ==> Level(h', x) == Level(h, x)
    ensures Descending(h', l)
  {
    assert forall i :: 0 <= i < |l| ==> l[i] in l && Level(h', l[i]) == Level(h, l[i]);
  }

  lemma SweptOtherList(g: G, r: G, th: Id, t: Id)
    requires SweepsUpvals(g, r, th) && t in g.heap && g.heap[t].body.Thread? && t != th
    requires OpenList(g.heap, t, g.heap[t].body.openupval, |g.heap[t].body.stack|)
    requires OpenList(g.heap, th, g.heap[th].body.openupval, |g.heap[th].body.stack|)
    ensures t in r.heap && r.heap[t].body == g.heap[t].body
    ensures forall x :: x in g.heap[t].body.openupval ==>
                          x in r.heap && r.heap[x] == g.heap[x] && x !in g.heap[th].body.openupval
    ensures OpenList(r.heap, t, r.heap[t].body.openupval, |r.heap[t].body.stack|)
  {
    var l, k := g.heap[th].body.openupval, g.heap[t].body.openupval;
    assert forall x :: x in l ==> OpenAt(g.heap, x, th);
    forall x | x in k
      ensures x in r.heap && r.heap[x] == g.heap[x] && x !in l
    {
      assert OpenAt(g.heap, x, t);
    }
    DescendingSame(g.heap, r.heap, k);
  }

  lemma SweptOwnList(g: G, r: G, th: Id)
    requires SweepsUpvals(g, r, th)
    requires OpenList(g.heap, th, g.heap[th].body.openupval, |g.heap[th].body.stack|)
    ensures th in r.heap && r.heap[th].body.Thread?
    ensures forall x :: x in r.heap[th].body.openupval ==>
                          x in g.heap[th].body.openupval && x in r.heap && r.heap[x].color == White(g.white)
    ensures OpenList(r.heap, th, r.heap[th].body.openupval, |r.heap[th].body.stack|)
  {
    var l := g.heap[th].body.openupval;
    SurvivorsDescend(g, g.heap, l);
    hide KeepOpen;
    assert th !in l;
    var k := r.heap[th].body.openupval;
    forall x | x in k
      ensures x in l && x in r.heap && r.heap[x].body == g.heap[x].body && Level(r.heap, x) == Level(g.heap, x)
    {
      assert OpenAt(g.heap, x, th);
    }
    DescendingSame(g.heap, r.heap, k);
  }

  lemma SweptOpenList(g: G, r: G, th: Id, t: Id)
    requires SweepsUpvals(g, r, th) && t in g.heap && g.heap[t].body.Thread?
    requires OpenList(g.heap, t, g.heap[t].body.openupval, |g.heap[t].body.stack|)
    requires OpenList(g.heap, th, g.heap[th].body.openupval, |g.heap[th].body.stack|)
    ensures t in r.heap && r.heap[t].body.Thread?
            && OpenList(r.heap, t, r.heap[t].body.openupval, |r.heap[t].body.stack|)
    ensures forall x :: x in r.heap[t].body.openupval ==> x in g.heap[t].body.openupval && x in r.heap
    ensures t != th ==> forall x :: x in r.heap[t].body.openupval ==> x !in g.heap[th].body.openupval
  {
    if t == th {
      SweptOwnList(g, r, th);
    } else {
      SweptOtherList(g, r, th, t);
    }
  }

  lemma SweptUpvalsLinked(g: G, r: G, th: Id)
    requires SweepsUpvals(g, r, th) && UpvalsLinked(g.heap, g.uvhead)
    ensures UpvalsLinked(r.heap, r.uvhead)
  {
    KeepOpenNoDup(g, g.heap[th].body.openupval, g.uvhead);
    forall t | t in r.heap && r.heap[t].body.Thread?
      ensures OpenList(r.heap, t, r.heap[t].body.openupval, |r.heap[t].body.stack|)
    {
      SweptOpenList(g, r, th, t);
    }
    forall x | x in r.heap && IsOpen(r.heap[x].body)
      ensures var t := r.heap[x].body.loc.th;
              t in r.heap && r.heap[t].body.Thread? && x in r.heap[t].body.openupval && r.heap[x].color != Black
    {
      assert x != th && r.heap[x].body == g.heap[x].body;
      var t := g.heap[x].body.loc.th;
      assert t in g.heap && g.heap[t].body.Thread? && x in g.heap[t].body.openupval;
      SweptOpenList(g, r, th, t);
      hide OpenList;
    }
  }

  lemma SweptUpvalsOthers(g: G, r: G, th: Id)
    requires SweepsUpvals(g, r, th) && Linked(g)
    ensures StringsLinked(r.heap, r.strt) && RootLinked(r.heap, r.rootgc, r.tmudata, r.main)
    ensures forall o :: o in g.heap && !IsOpen(g.heap[o].body) ==> o in r.heap && r.heap[o].color == g.heap[o].color
  {
    var l := g.heap[th].body.openupval;
    assert OpenList(g.heap, th, l, |g.heap[th].body.stack|);
    assert forall x :: x in l ==> OpenAt(g.heap, x, th);
    hide UpvalsLinked, Survivors, KeepOpen, OpenList;
    SweptStrings(g.heap, r.heap, g.strt);
    SweptRoots(g.heap, r.heap, g.rootgc, g.tmudata, g.main);
  }

  /** Only open upvalues go, and only a thread's contents change. */
  ghost predicate FreesOpen(h: Heap, h': Heap) {
    && (forall o :: o in h' ==> o in h && h'[o].fixed == h[o].fixed
                                && (h'[o].body == h[o].body || (h[o].body.Thread? && h'[o].body.Thread?)))
    && (forall o :: o in h && o !in h' ==> IsOpen(h[o].body))
  }

  lemma SweptStrings(h: Heap, h': Heap, strt: seq<seq<Id>>)
    requires FreesOpen(h, h') && StringsLinked(h, strt)
    ensures StringsLinked(h', strt)
  {
    assert forall o :: o in h && h[o].body.String? ==> o in h' && h'[o].body == h[o].body;
    assert forall o :: o in h' && h'[o].body.String? ==> h[o].body == h'[o].body;
  }

  lemma SweptRoots(h: Heap, h': Heap, rootgc: seq<Id>, tmudata: seq<Id>, main: Id)
    requires FreesOpen(h, h') && RootLinked(h, rootgc, tmudata, main)
    ensures RootLinked(h', rootgc, tmudata, main)
  {
  }

  lemma SweptUpvalsCollects(g: G, r: G, th: Id)
    requires SweepsUpvals(g, r, th) && UpvalsLinked(g.heap, g.uvhead)
    requires forall o :: o in g.heap && g.heap[o].fixed ==> !IsOpen(g.heap[o].body)
    ensures Collects(g, r)
  {
    hide UpvalsLinked, Survivors, KeepOpen;
    OpenOf(g, th);
    SweptValues(g, r, th);
    forall o, x | Refers(r.heap, o, x)
      ensures Refers(g.heap, o, x)
    {
      assert o in g.heap;
    }
  }

  /** A thread's list holds open upvalues. */
  lemma OpenOf(g: G, th: Id)
    requires UpvalsLinked(g.heap, g.uvhead) && th in g.heap && g.heap[th].body.Thread?
    ensures forall x :: x in g.heap[th].body.openupval ==> x in g.heap && IsOpen(g.heap[x].body)
  {
    assert OpenList(g.heap, th, g.heap[th].body.openupval, |g.heap[th].body.stack|);
    assert forall x :: x in g.heap[th].body.openupval ==> OpenAt(g.heap, x, th);
  }

  lemma SweptValues(g: G, r: G, th: Id)
    requires SweepsUpvals(g, r, th)
             && forall x :: x in g.heap[th].body.openupval ==> x in g.heap && IsOpen(g.heap[x].body)
    ensures forall loc :: UpvalValue(r.heap, loc) == UpvalValue(g.heap, loc)
  {
    hide Survivors, KeepOpen;
    forall loc
      ensures UpvalValue(r.heap, loc) == UpvalValue(g.heap, loc)
    {
      if loc.Open? && loc.th in g.heap[th].body.openupval { assert IsOpen(g.heap[loc.th].body); }
    }
  }

  lemma SweptUpvalsSwept(g: G, r: G, th: Id, o: Id)
    requires SweepsUpvals(g, r, th) && UpvalsLinked(g.heap, g.uvhead) && Swept(g, o) && !IsOpen(g.heap[o].body)
    ensures Swept(r, o)
  {
    var l := g.heap[th].body.openupval;
    assert OpenList(g.heap, th, l, |g.heap[th].body.stack|);
    assert forall x :: x in l ==> OpenAt(g.heap, x, th);
    if g.heap[o].body.Thread? {
      SweptOpenList(g, r, th, o);
      hide UpvalsLinked, Survivors, KeepOpen, OpenList;
    }
  }

  lemma SweptUpvalsList(g: G, r: G, th: Id, n: nat)
    requires SweepsUpvals(g, r, th) && UpvalsLinked(g.heap, g.uvhead) && ListSwept(g, n)
    requires forall o :: o in g.rootgc ==> o in g.heap && !IsOpen(g.heap[o].body)
    ensures ListSwept(r, n)
  {
    SweepsFrame(g, r, th);
    hide SweepsUpvals, UpvalsLinked, Swept;
    forall i | 0 <= i < n && i < |r.rootgc|
      ensures Swept(r, r.rootgc[i])
    {
      assert Swept(g, g.rootgc[i]) && g.rootgc[i] in g.rootgc;
      SweptUpvalsSwept(g, r, th, g.rootgc[i]);
    }
  }

  lemma SweptUpvalsStrings(g: G, r: G, n: nat)
    requires StringsSwept(g, n) && StringsLinked(g.heap, g.strt) && r == g.(heap := r.heap, uvhead := r.uvhead)
    requires forall o :: o in g.heap && !IsOpen(g.heap[o].body) ==> o in r.heap && r.heap[o].color == g.heap[o].color
    ensures StringsSwept(r, n)
  {
    forall j, o | 0 <= j < n && j < |r.strt| && o in r.strt[j]
      ensures o in r.heap && r.heap[o].color == White(r.white)
    {
      assert o in g.heap && g.heap[o].body.String?;
    }
  }

  lemma SweepUpvalsColored(g: G, r: G, th: Id)
    requires SweepsUpvals(g, r, th) && Linked(g) && g.phase == Sweep && Colored(g)
    ensures Colored(r)
  {
    LinkedParts(g);
    assert forall o :: o in g.rootgc ==> o in g.heap && !IsOpen(g.heap[o].body);
    SweptUpvalsOthers(g, r, th);
    SweepsFrame(g, r, th);
    hide SweepsUpvals, UpvalsLinked, StringsLinked, RootLinked, ListSwept, StringsSwept;
    SweptUpvalsList(g, r, th, g.sweepgc);
    SweptUpvalsStrings(g, r, |g.strt|);
  }

  lemma SweepsFrame(g: G, r: G, th: Id)
    requires SweepsUpvals(g, r, th)
    ensures r == g.(heap := r.heap, uvhead := r.uvhead)
  {
  }

  lemma FixedNotOpen(g: G)
    requires Linked(g)
    ensures forall o :: o in g.heap && g.heap[o].fixed ==> !IsOpen(g.heap[o].body)
  {
  }

  lemma SweptThread(g: G, r: G, th: Id, t: Id)
    requires SweepsUpvals(g, r, th) && UpvalsLinked(g.heap, g.uvhead) && t in g.heap && g.heap[t].body.Thread?
    ensures t in r.heap && r.heap[t].body.Thread? && r.heap[t].color == g.heap[t].color
            && r.heap[t].fixed == g.heap[t].fixed
  {
    assert OpenList(g.heap, th, g.heap[th].body.openupval, |g.heap[th].body.stack|);
    assert forall x :: x in g.heap[th].body.openupval ==> OpenAt(g.heap, x, th);
  }

  /** Sweeping a thread's open upvalues keeps the invariant, and leaves the remaining ones white. */
  lemma SweepUpvalsKeepsInv(g: G, th: Id)
    requires Inv(g) && g.phase == Sweep && th in g.heap && g.heap[th].body.Thread?
    ensures th !in g.heap[th].body.openupval
    ensures var r := SweepUpvals(g, th);
            && Inv(r) && r == g.(heap := r.heap, uvhead := r.uvhead)
            && th in r.heap && r.heap[th].body.Thread? && r.heap[th].color == g.heap[th].color
               && r.heap[th].fixed == g.heap[th].fixed
            && forall uv :: uv in r.heap[th].body.openupval ==> uv in r.heap && r.heap[uv].color == White(g.white)
  {
    LinkedParts(g);
    SweepUpvalsIs(g, th);
    var r := SweepUpvals(g, th);
    FixedNotOpen(g);
    SweepsFrame(g, r, th);
    assert OpenList(g.heap, th, g.heap[th].body.openupval, |g.heap[th].body.stack|);
    hide SweepUpvals, UpvalsLinked, StringsLinked, RootLinked, Safe, Colored;
    SweptOwnList(g, r, th);
    SweptUpvalsOthers(g, r, th);
    hide SweepsUpvals, OpenList;
    SweptUpvalsLinked(g, r, th);
    SweptUpvalsCollects(g, r, th);
    SweepUpvalsColored(g, r, th);
    CollectsSafe(g, r);
    SweptThread(g, r, th, g.cur);
    SweptThread(g, r, th, th);
  }

  // Keeping an object of the root list

  lemma ListSweptRecolored(g: G, r: G, o: Id, n: nat)
    requires ListSwept(g, n) && o in g.heap && r.heap == Paint(g.heap, o, White(g.white)) && r.white == g.white
             && r.rootgc == g.rootgc
    ensures ListSwept(r, n)
  {
    forall i | 0 <= i < n && i < |r.rootgc|
      ensures Swept(r, r.rootgc[i])
    {
      assert Swept(g, g.rootgc[i]);
    }
  }

  lemma PaintRefers(g: G, o: Id, c: Color)
    requires o in g.heap
    ensures forall x, y :: Refers(Paint(g.heap, o, c), x, y) <==> Refers(g.heap, x, y)
  {
    var h := Paint(g.heap, o, c);
    assert SameButColor(g.heap, h);
    forall x, y
      ensures Refers(h, x, y) <==> Refers(g.heap, x, y)
    {
      if x in h && h[x].body.Upval? { UpvalValueSame(g.heap, h, h[x].body.loc); }
    }
  }

  /** Whitening an object that is not dead changes nothing for the program. */
  lemma WhitenSafe(g: G, o: Id)
    requires Safe(g) && Alive(g, o)
    ensures Safe(g.(heap := Paint(g.heap, o, White(g.white))))
  {
    var r := g.(heap := Paint(g.heap, o, White(g.white)));
    PaintRefers(g, o, White(g.white));
    assert forall x :: Alive(r, x) <==> Alive(g, x);
    assert forall x :: IsRoot(r, x) <==> IsRoot(g, x);
  }

  lemma WhitenLinked(g: G, o: Id)
    requires Linked(g) && o in g.heap
    ensures Linked(g.(heap := Paint(g.heap, o, White(g.white))))
  {
    hide Linked, StringsLinked, UpvalsLinked, RootLinked;
    var r := g.(heap := Paint(g.heap, o, White(g.white)));
    LinkedParts(g);
    OpenNotBlack(g.heap, g.uvhead);
    assert SameLinks(g.heap, r.heap);
    LinkedSameLinks(g, r);
  }

  lemma SweepParts(g: G)
    requires Inv(g) && g.phase == Sweep
    ensures Linked(g) && Safe(g) && StringsSwept(g, |g.strt|) && g.sweepgc <= |g.rootgc| && ListSwept(g, g.sweepgc)
    ensures g.cur in g.heap && g.heap[g.cur].body.Thread?
  {
  }

  lemma StringsSweptRecolored(g: G, o: Id, n: nat)
    requires StringsSwept(g, n) && o in g.heap
    ensures StringsSwept(g.(heap := Paint(g.heap, o, White(g.white))), n)
  {
  }

  lemma LinkedMoved(g: G, r: G)
    requires Linked(g) && Safe(g) && r == g.(sweepgc := r.sweepgc)
    ensures Linked(r) && Safe(r)
  {
    assert forall x :: IsRoot(r, x) <==> IsRoot(g, x);
    assert forall x :: Alive(r, x) <==> Alive(g, x);
  }

  /** Keeping the object under the sweep pointer. */
  lemma AdvanceKeepsInv(g: G)
    requires Inv(g) && g.phase == Sweep && g.sweepgc < |g.rootgc| && !Dead(g, g.rootgc[g.sweepgc])
    requires g.rootgc[g.sweepgc] in g.heap
    requires forall uv :: uv in OpenUpvals(g.heap, g.rootgc[g.sweepgc]) ==>
                            uv in g.heap && g.heap[uv].color == White(g.white)
    ensures Inv(g.(heap := Paint(g.heap, g.rootgc[g.sweepgc], White(g.white)), sweepgc := g.sweepgc + 1))
  {
    hide Linked, Safe, StringsSwept;
    SweepParts(g);
    var o := g.rootgc[g.sweepgc];
    var p := g.(heap := Paint(g.heap, o, White(g.white)));
    var r := p.(sweepgc := g.sweepgc + 1);
    WhitenSafe(g, o);
    WhitenLinked(g, o);
    LinkedMoved(p, r);
    ListSweptRecolored(g, r, o, g.sweepgc);
    StringsSweptRecolored(g, o, |g.strt|);
    StringsSweptMoved(p, r, |g.strt|);
    assert Swept(r, o);
  }

  lemma StringsSweptMoved(g: G, r: G, n: nat)
    requires StringsSwept(g, n) && r == g.(sweepgc := r.sweepgc)
    ensures StringsSwept(r, n)
  {
  }

  // Freeing an object of the root list

  lemma FreeRoots(h: Heap, rootgc: seq<Id>, tmudata: seq<Id>, main: Id, o: Id)
    requires RootLinked(h, rootgc, tmudata, main) && o in rootgc && o != main
    ensures RootLinked(h - {o}, Without(rootgc, o), tmudata, main)
  {
    WithoutNoDup(rootgc, o);
    WithoutBehind(rootgc, o, main);
    hide NoDup, IndexOf, Behind, Without;
    assert o !in Behind(Without(rootgc, o), main) by { BehindElems(Without(rootgc, o), main); }
  }

  lemma FreeUpvals(h: Heap, uvhead: seq<Id>, o: Id)
    requires UpvalsLinked(h, uvhead) && o in h && !IsOpen(h[o].body) && OpenUpvals(h, o) == []
    ensures UpvalsLinked(h - {o}, uvhead)
    ensures forall uv :: uv in h && IsOpen(h[uv].body) ==> h[uv].body.loc.th != o
  {
    var h' := h - {o};
    forall uv | uv in h && IsOpen(h[uv].body)
      ensures h[uv].body.loc.th != o
    {
      assert uv in h[h[uv].body.loc.th].body.openupval;
    }
    forall t | t in h' && h'[t].body.Thread?
      ensures OpenList(h', t, h'[t].body.openupval, |h'[t].body.stack|)
    {
      var l := h[t].body.openupval;
      assert OpenList(h, t, l, |h[t].body.stack|);
      assert forall uv :: uv in l ==> OpenAt(h, uv, t) && uv != o;
      DescendingSame(h, h', l);
    }
  }

  lemma FreeStrings(h: Heap, strt: seq<seq<Id>>, o: Id)
    requires StringsLinked(h, strt) && o in h && !h[o].body.String?
    ensures StringsLinked(h - {o}, strt)
  {
  }

  lemma FreeCollects(g: G, r: G, o: Id)
    requires Dies(g, o) && r == g.(heap := g.heap - {o}, rootgc := Without(g.rootgc, o))
    requires forall uv :: uv in g.heap && IsOpen(g.heap[uv].body) ==> g.heap[uv].body.loc.th != o
    ensures Collects(g, r)
  {
    forall x, y | Refers(r.heap, x, y)
      ensures Refers(g.heap, x, y)
    {
    }
  }

  lemma FreeListSwept(g: G, r: G, o: Id, n: nat)
    requires ListSwept(g, n) && n <= |g.rootgc| && Dead(g, o)
             && r == g.(heap := g.heap - {o}, rootgc := Without(g.rootgc, o))
    ensures n <= |r.rootgc| && ListSwept(r, n)
  {
    forall i | 0 <= i < n
      ensures g.rootgc[i] != o
    {
      assert Swept(g, g.rootgc[i]);
    }
    WithoutPrefix(g.rootgc, o, n);
    forall i | 0 <= i < n && i < |r.rootgc|
      ensures Swept(r, r.rootgc[i])
    {
      assert Swept(g, g.rootgc[i]);
    }
  }

  lemma DeadOther(g: G, o: Id)
    requires Inv(g) && Dies(g, o) && o in g.rootgc
    ensures o != g.main && o != g.cur && !g.heap[o].body.String? && !IsOpen(g.heap[o].body)
  {
    assert IsRoot(g, g.main) && IsRoot(g, g.cur);
  }

  lemma FreeLinked(g: G, r: G, o: Id)
    requires Linked(g) && o in g.rootgc && o != g.main && o in g.heap && !IsOpen(g.heap[o].body)
             && !g.heap[o].body.String?
    requires OpenUpvals(g.heap, o) == [] && r == g.(heap := g.heap - {o}, rootgc := Without(g.rootgc, o))
    ensures Linked(r)
    ensures forall uv :: uv in g.heap && IsOpen(g.heap[uv].body) ==> g.heap[uv].body.loc.th != o
  {
    hide StringsLinked, UpvalsLinked, RootLinked;
    FreeRoots(g.heap, g.rootgc, g.tmudata, g.main, o);
    FreeUpvals(g.heap, g.uvhead, o);
    FreeStrings(g.heap, g.strt, o);
  }

  lemma FreeStringsSwept(g: G, r: G, o: Id, n: nat)
    requires StringsSwept(g, n) && Linked(g) && o in g.heap && !g.heap[o].body.String?
             && r == g.(heap := g.heap - {o}, rootgc := r.rootgc)
    ensures StringsSwept(r, n)
  {
    hide Linked;
    assert StringsLinked(g.heap, g.strt) by { LinkedParts(g); }
    forall j, x | 0 <= j < n && j < |r.strt| && x in r.strt[j]
      ensures x in r.heap && r.heap[x].color == White(r.white)
    {
      assert x in g.heap && g.heap[x].body.String?;
    }
  }

  /** Freeing a dead object without open upvalues keeps the invariant. */
  lemma FreeKeepsInv(g: G, o: Id)
    requires Inv(g) && g.phase == Sweep && Dies(g, o) && o in g.rootgc && OpenUpvals(g.heap, o) == []
    ensures Inv(g.(heap := g.heap - {o}, rootgc := Without(g.rootgc, o)))
  {
    var r := g.(heap := g.heap - {o}, rootgc := Without(g.rootgc, o));
    DeadOther(g, o);
    hide Linked, Safe, StringsSwept, ListSwept;
    SweepParts(g);
    FreeLinked(g, r, o);
    FreeCollects(g, r, o);
    CollectsSafe(g, r);
    FreeListSwept(g, r, o, g.sweepgc);
    FreeStringsSwept(g, r, o, |g.strt|);
  }

  // The sweep of the root list

  /** What closing the upvalues of a thread does not touch outside the mark phase. */
  ghost predicate CloseFrame(g: G, r: G, th: Id) {
    && r.phase == g.phase && r.white == g.white && r.main == g.main && r.cur == g.cur
    && (forall o :: o in g.rootgc ==> o in r.rootgc)
    && (th in g.heap && g.heap[th].body.Thread? ==>
          && th in r.heap && r.heap[th].body.Thread?
          && r.heap[th].color == g.heap[th].color && r.heap[th].fixed == g.heap[th].fixed)
  }

  lemma CloseFirstFrame(g: G, th: Id)
    requires Inv(g) && g.phase != Propagate && OpenUpvals(g.heap, th) != []
    ensures CloseFrame(g, CloseFirst(g, th), th)
  {
    LinkedParts(g);
    hide Inv, UpvalsLinked, CloseFirst;
    CloseFirstSweeps(g, th);
  }

  lemma {:induction false} CloseAllFrame(g: G, th: Id)
    requires Inv(g) && g.phase != Propagate && th in g.heap && g.heap[th].body.Thread?
    ensures CloseFrame(g, Close(g, th, 0), th) && OpenUpvals(Close(g, th, 0).heap, th) == []
    decreases |OpenUpvals(g.heap, th)|
  {
    if OpenUpvals(g.heap, th) != [] {
      hide Inv, CloseFirst;
      CloseFirstSweep(g, th);
      CloseFirstShrinks(g, th);
      CloseFirstFrame(g, th);
      CloseAllFrame(CloseFirst(g, th), th);
    }
  }

  lemma FreeObjKeepsInv(g: G, o: Id)
    requires Inv(g) && g.phase == Sweep && Dies(g, o) && o in g.rootgc
    ensures Inv(FreeObj(g, o))
  {
    hide Inv, Close;
    CloseKeepsInv(g, o, 0);
    if g.heap[o].body.Thread? {
      CloseAllFrame(g, o);
    } else {
      assert Close(g, o, 0) == g by { NothingToClose(g, o); }
    }
    FreeKeepsInv(Close(g, o, 0), o);
  }

  lemma NothingToClose(g: G, o: Id)
    requires OpenUpvals(g.heap, o) == []
    ensures Close(g, o, 0) == g
  {
  }

  lemma SweepUnder(g: G)
    requires Inv(g) && g.phase == Sweep && g.sweepgc < |g.rootgc|
    ensures CanSweep(g)
    ensures var o := g.rootgc[g.sweepgc]; o in g.rootgc && !g.heap[o].body.String? && (g.heap[o].fixed ==> !Dead(g, o))
  {
    var o := g.rootgc[g.sweepgc];
    assert o in g.rootgc;
    if g.heap[o].body.Thread? {
      LinkedParts(g);
      SweepUpvalsIs(g, o);
    }
    assert IsRoot(g, g.main);
  }

  lemma KeepOrFreeKeepsInv(r: G)
    requires Inv(r) && r.phase == Sweep && r.sweepgc < |r.rootgc| && r.rootgc[r.sweepgc] in r.heap
    requires forall uv :: uv in OpenUpvals(r.heap, r.rootgc[r.sweepgc]) ==>
                            uv in r.heap && r.heap[uv].color == White(r.white)
    requires r.heap[r.rootgc[r.sweepgc]].fixed ==> !Dead(r, r.rootgc[r.sweepgc])
    ensures Inv(KeepOrFree(r)) && KeepOrFree(r).phase == Sweep
  {
    hide Inv, FreeObj;
    var o := r.rootgc[r.sweepgc];
    if Dies(r, o) {
      FreeObjKeepsInv(r, o);
      FreeObjPhase(r, o);
    } else {
      AdvanceKeepsInv(r);
    }
  }

  /** One turn of `sweeplist` keeps the invariant. */
  lemma SweepOneKeepsInv(g: G)
    requires Inv(g) && g.phase == Sweep && g.sweepgc < |g.rootgc|
    ensures CanSweep(g) && Inv(SweepOne(g)) && SweepOne(g).phase == Sweep
  {
    hide Inv, KeepOrFree, SweepUpvals;
    SweepUnder(g);
    var o := g.rootgc[g.sweepgc];
    if g.heap[o].body.Thread? {
      SweepUpvalsKeepsInv(g, o);
      KeepOrFreeKeepsInv(SweepUpvals(g, o));
    } else {
      KeepOrFreeKeepsInv(g);
    }
  }

  lemma FreeObjPhase(g: G, o: Id)
    requires Inv(g) && g.phase == Sweep && Dies(g, o)
    ensures FreeObj(g, o).phase == Sweep
  {
    if g.heap[o].body.Thread? {
      CloseAllFrame(g, o);
    } else {
      NothingToClose(g, o);
    }
  }

  lemma {:induction false} SweepSomeKeepsInv(g: G, n: nat)
    requires Inv(g) && g.phase == Sweep
    ensures Inv(SweepSome(g, n)) && SweepSome(g, n).phase == Sweep
    decreases n
  {
    hide Inv, SweepOne;
    if n > 0 && CanSweep(g) {
      SweepOneKeepsInv(g);
      SweepSomeKeepsInv(SweepOne(g), n - 1);
    }
  }

  /** Where an object is linked. */
  lemma Placed(g: G, o: Id)
    requires StringsLinked(g.heap, g.strt) && UpvalsLinked(g.heap, g.uvhead)
             && RootLinked(g.heap, g.rootgc, g.tmudata, g.main)
    requires o in g.heap && o !in g.tmudata
    ensures g.heap[o].body.String? ==> exists j :: 0 <= j < |g.strt| && o in g.strt[j]
    ensures IsOpen(g.heap[o].body) ==>
              var th := g.heap[o].body.loc.th;
              th in g.rootgc && th in g.heap && g.heap[th].body.Thread? && o in g.heap[th].body.openupval
    ensures !g.heap[o].body.String? && !IsOpen(g.heap[o].body) ==> o in g.rootgc
  {
    hide Bucket, RootOrder, OpenList;
    if g.heap[o].body.String? { assert o in g.strt[Bucket(g.heap[o].body.text, |g.strt|)]; }
  }

  lemma ListSweptAt(g: G, o: Id)
    requires ListSwept(g, g.sweepgc) && g.sweepgc >= |g.rootgc| && o in g.rootgc
    ensures Swept(g, o)
  {
    var i :| 0 <= i < |g.rootgc| && g.rootgc[i] == o;
    assert Swept(g, g.rootgc[i]);
  }

  lemma AllSwept(g: G)
    requires Inv(g) && g.phase == Sweep && g.sweepgc >= |g.rootgc|
    ensures AllWhite(g)
  {
    hide Inv, Linked, StringsLinked, UpvalsLinked, RootLinked, Safe, ListSwept;
    SweepParts(g);
    LinkedParts(g);
    forall o | o in g.heap && o !in g.tmudata
      ensures g.heap[o].color == White(g.white)
    {
      Placed(g, o);
      if IsOpen(g.heap[o].body) {
        ListSweptAt(g, g.heap[o].body.loc.th);
      } else if !g.heap[o].body.String? {
        ListSweptAt(g, o);
      }
    }
  }

  lemma Rephase(g: G, p: Phase)
    requires Inv(g) && AllWhite(g) && (p == Pause || p == Finalize)
    ensures Inv(g.(phase := p))
  {
    var r := g.(phase := p);
    hide Linked, AllWhite;
    SafeRephase(g, r);
    LinkedRephase(g, r);
    assert AllWhite(r) by { WhiteRephase(g, r); }
  }

  lemma WhiteRephase(g: G, r: G)
    requires AllWhite(g) && r == g.(phase := r.phase)
    ensures AllWhite(r)
  {
  }

  lemma SweepKeepsInv(g: G)
    requires Inv(g) && g.phase == Sweep
    ensures Inv(SingleStep(g))
  {
    var r := SweepSome(g, GCSWEEPMAX);
    SweepSomeKeepsInv(g, GCSWEEPMAX);
    if r.sweepgc >= |r.rootgc| {
      AllSwept(r);
      hide Inv;
      Rephase(r, Finalize);
    }
  }

  // Finalizers

  lemma TmudataHead(g: G)
    requires Linked(g) && g.tmudata != []
    ensures g.tmudata[0] in g.heap && g.main in g.rootgc
  {
    assert g.tmudata[0] in g.tmudata;
  }

  lemma TakeUdataIs(g: G)
    requires g.tmudata != [] && g.tmudata[0] in g.heap && g.main in g.rootgc
    ensures var u, r := g.tmudata[0], TakeUdata(g);
            r == g.(heap := Paint(g.heap, u, White(g.white)), tmudata := g.tmudata[1..],
                    rootgc := Insert(g.rootgc, IndexOf(g.rootgc, g.main) + 1, u), sweepgc := r.sweepgc)
  {
    hide Insert, IndexOf;
  }

  lemma WhitenParts(g: G, u: Id)
    requires Linked(g) && u in g.heap
    ensures StringsLinked(Paint(g.heap, u, White(g.white)), g.strt)
            && UpvalsLinked(Paint(g.heap, u, White(g.white)), g.uvhead)
  {
    hide Linked, StringsLinked, UpvalsLinked, RootLinked;
    WhitenLinked(g, u);
    LinkedParts(g.(heap := Paint(g.heap, u, White(g.white))));
  }

  lemma TakenRootLinked(g: G)
    requires Linked(g) && g.tmudata != []
    requires g.tmudata[0] in g.heap && g.main in g.rootgc
    ensures RootLinked(TakeUdata(g).heap, TakeUdata(g).rootgc, TakeUdata(g).tmudata, g.main)
  {
    hide Linked, StringsLinked, UpvalsLinked, RootLinked, Insert, IndexOf;
    LinkedParts(g);
    TakenRoots(g.heap, Paint(g.heap, g.tmudata[0], White(g.white)), g.rootgc, g.tmudata, g.main);
  }

  lemma TakeUdataLinked(g: G)
    requires Linked(g) && g.tmudata != []
    ensures g.tmudata[0] in g.heap && g.main in g.rootgc && Linked(TakeUdata(g))
  {
    hide StringsLinked, UpvalsLinked, RootLinked, Insert, IndexOf, TakeUdata;
    TmudataHead(g);
    WhitenParts(g, g.tmudata[0]);
    TakenRootLinked(g);
    TakeUdataIs(g);
  }

  lemma TakenOrder(h: Heap, h': Heap, rootgc: seq<Id>, tmudata: seq<Id>, main: Id)
    requires RootOrder(h, rootgc, tmudata, main) && tmudata != [] && SameButColor(h, h')
    requires tmudata[0] in h && h[tmudata[0]].body.Userdata? && tmudata[0] !in rootgc
    ensures RootOrder(h', Insert(rootgc, IndexOf(rootgc, main) + 1, tmudata[0]), tmudata[1..], main)
  {
    var u, k := tmudata[0], IndexOf(rootgc, main) + 1;
    TailNoDup(tmudata);
    InsertElems(rootgc, k, u);
    InsertBehind(rootgc, k, u, main);
    hide NoDup, IndexOf, Behind, Insert;
  }

  lemma TakenCover(h: Heap, h': Heap, rootgc: seq<Id>, root: seq<Id>, tmudata: seq<Id>, main: Id)
    requires RootCover(h, rootgc, tmudata, main) && NoDup(tmudata) && tmudata != [] && SameButColor(h, h')
    requires forall x :: x in root <==> x in rootgc || x == tmudata[0]
    ensures RootCover(h', root, tmudata[1..], main)
  {
    TailNoDup(tmudata);
    assert forall x :: x in tmudata <==> x == tmudata[0] || x in tmudata[1..] by {
      assert tmudata == [tmudata[0]] + tmudata[1..];
    }
    hide NoDup;
  }

  /** A userdata returns from `tmudata` to the root list. */
  lemma TakenRoots(h: Heap, h': Heap, rootgc: seq<Id>, tmudata: seq<Id>, main: Id)
    requires RootLinked(h, rootgc, tmudata, main) && tmudata != [] && SameButColor(h, h')
    ensures RootLinked(h', Insert(rootgc, IndexOf(rootgc, main) + 1, tmudata[0]), tmudata[1..], main)
  {
    var u, k := tmudata[0], IndexOf(rootgc, main) + 1;
    assert u in tmudata;
    InsertElems(rootgc, k, u);
    TakenOrder(h, h', rootgc, tmudata, main);
    hide Behind, Insert, IndexOf;
    TakenCover(h, h', rootgc, Insert(rootgc, k, u), tmudata, main);
  }

  lemma FinalizeKeepsInv(g: G)
    requires Inv(g) && g.phase == Finalize
    ensures Inv(SingleStep(g))
  {
    if g.tmudata == [] {
      hide Inv;
      assert AllWhite(g) by { FinalizeParts(g); }
      Rephase(g, Pause);
    } else {
      TakeUdataLinked(g);
      TakeUdataRest(g);
    }
  }

  lemma FinalizeParts(g: G)
    requires Inv(g) && (g.phase == Finalize || g.phase == Pause)
    ensures AllWhite(g) && Safe(g) && Linked(g)
  {
  }

  lemma TakeUdataRest(g: G)
    requires Inv(g) && g.phase == Finalize && g.tmudata != []
    ensures g.tmudata[0] in g.heap && g.main in g.rootgc
    ensures var r := TakeUdata(g);
            Safe(r) && AllWhite(r) && r.phase == Finalize && r.cur in r.heap && r.heap[r.cur].body.Thread?
  {
    hide Linked, Insert, IndexOf;
    var u := g.tmudata[0];
    assert u in g.tmudata && IsRoot(g, u);
    TmudataHead(g);
    TakeUdataIs(g);
    var p := g.(heap := Paint(g.heap, u, White(g.white)));
    WhitenSafe(g, u);
    var r := TakeUdata(g);
    assert r == p.(tmudata := r.tmudata, rootgc := r.rootgc, sweepgc := r.sweepgc);
    assert g.tmudata == [u] + g.tmudata[1..];
    assert forall x :: IsRoot(r, x) ==> IsRoot(p, x);
    assert forall x :: Alive(r, x) <==> Alive(p, x);
  }

  /** Every collector step keeps the invariant. */
  lemma SingleStepKeepsInv(g: G)
    requires Inv(g)
    ensures Inv(SingleStep(g))
  {
    match g.phase
    case Pause => MarkRootKeepsInv(g);
    case Propagate =>
      if g.gray == [] {
        AtomicKeepsInv(g);
      } else {
        PropagateStepKeepsInv(g);
      }
    case SweepString => SweepStringKeepsInv(g);
    case Sweep => SweepKeepsInv(g);
    case Finalize => FinalizeKeepsInv(g);
  }

  lemma PropagateStepKeepsInv(g: G)
    requires Inv(g) && g.phase == Propagate && g.gray != []
    ensures g.gray[0] in g.heap && Traversable(g.heap[g.gray[0]].body) && Inv(PropagateMark(g))
  {
    MarkPhaseFacts(g);
    PropagateKeepsTri(g, false, Elems(g.tmudata));
    var r := PropagateMark(g);
    hide Tri, NoDangling, Linked;
    forall x | x in g.tmudata
      ensures !Dead(r, x)
    {
      PropagateColors(g, x);
    }
    MarkStepKeepsInv(g, r);
  }

  lemma PropagateColors(g: G, x: Id)
    requires Inv(g) && g.phase == Propagate && g.gray != [] && x in g.heap && !Dead(g, x)
    ensures g.gray[0] in g.heap && Traversable(g.heap[g.gray[0]].body)
    ensures x in PropagateMark(g).heap && !Dead(PropagateMark(g), x)
  {
    MarkPhaseFacts(g);
    hide Inv;
    MarkingKeepsTri(g, false, Elems(g.tmudata));
    PropagateStep(g);
    PopListsOk(g);
  }
}
