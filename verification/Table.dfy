/** Lua tables: an array part, and a hash part that grows with it (`ltable.c`). */
module TableModel {
  import opened Common
  import opened TableNodes
  import opened TableSizes
  import opened TableValues

  /** Where the value of a key is kept. */
  datatype Slot = NoSlot | InArr(i: nat) | InNode(n: nat)

  /** The result of `luaH_set`: a slot for the value, or an error. */
  datatype Outcome = Ok(slot: Slot) | NilIndex | NanIndex

  const MAX_INT: int := 0x7fff_ffff

  const EMPTY: Node := Node(NilKey, Nil, None)

  /** No node at or above the free pointer is free. */
  ghost predicate TakenFrom(node: seq<Node>, f: int) {
    forall i :: 0 <= i < |node| && i >= f ==> node[i].key != NilKey
  }

  class Table {
    const hash: Hash
    var arr: seq<Val>
    var node: seq<Node>
    var dummy: bool
    var lastfree: int
    ghost var cid: seq<int>
    ghost var rank: seq<real>

    ghost predicate Valid()
      reads this
    {
      && Inv(hash, node, cid, rank) && KeysApart(arr, node) && |arr| <= Pow2(MAXBITS) && lastfree <= |node|
      && (if dummy then node == [EMPTY] && lastfree <= 0 else TakenFrom(node, lastfree))
    }

    /** The table as a function. */
    ghost function Value(k: Key): Val
      reads this
    {
      ValueIn(arr, node, k)
    }

    ghost predicate Present(k: Key)
      reads this
    {
      InArray(k, |arr|) || Has(node, k)
    }

    /** The slot belongs to the key. */
    ghost predicate SlotOf(s: Slot, k: Key)
      reads this
    {
      match s
      case NoSlot => false
      case InArr(i) => i < |arr| && k == IntKey(i + 1)
      case InNode(n) => n < |node| && node[n].key == k && !InArray(k, |arr|)
    }

    /** A new key need not make the table grow. */
    predicate Room()
      reads this
    {
      !dummy && !Full(node)
    }

    /** `luaH_new`. */
    constructor (h: Hash, narray: nat, nhash: nat)
      requires narray <= Pow2(MAXBITS)
      ensures Valid() && hash == h && |arr| == narray && forall k :: Value(k) == Nil
    {
      hash := h;
      arr := seq(narray, _ => Nil);
      new;
      SetNodeVector(nhash);
    }

    // Searching

    /** The loop of the search functions: the keys of a chain, from its main position. */
    method FindInChain(k: Key) returns (s: Slot)
      requires Valid() && k != NilKey && !InArray(k, |arr|)
      ensures (s == NoSlot <==> !Has(node, k)) && (k == NanKey ==> s == NoSlot)
      ensures s != NoSlot ==> SlotOf(s, k)
    {
      if k == NanKey {
        NoNan(hash, node, cid, rank);
        return NoSlot;
      }
      var n: nat := Main(hash, k, |node|);
      SearchStart(hash, node, cid, rank, k);
      while true
        invariant n < |node| && (Has(node, k) ==> Ahead(cid, rank, n, IndexOf(node, k)))
        decreases After(cid, rank, n)
      {
        if node[n].key == k { return InNode(n); }
        SearchStep(hash, node, cid, rank, k, n);
        if node[n].next == None { return NoSlot; }
        n := node[n].next.value;
      }
    }

    /** `luaH_get`, for the slot: none if the key is not in the table. */
    method Find(k: Key) returns (s: Slot)
      requires Valid()
      ensures k != NilKey ==> (s == NoSlot <==> !Present(k))
      ensures k == NilKey || k == NanKey ==> s == NoSlot
      ensures s != NoSlot ==> SlotOf(s, k)
    {
      if k == NilKey {
        return NoSlot;
      } else if k.IntKey? && 0 <= k.n - 1 < |arr| {
        return InArr(k.n - 1);
      }
      s := FindInChain(k);
    }

    /** `luaH_get`. */
    method Get(k: Key) returns (v: Val)
      requires Valid()
      ensures v == Value(k)
    {
      var s := Find(k);
      match s
      case NoSlot => v := Nil;
      case InArr(i) => v := arr[i];
      case InNode(n) =>
        ValueAt(arr, node, n);
        v := node[n].val;
    }

    /** Storing through a slot changes the value of its key, and of no other. */
    method Store(s: Slot, v: Val, ghost k: Key)
      requires Valid() && SlotOf(s, k) && k != NilKey
      modifies `arr, `node
      ensures Valid() && |arr| == |old(arr)| && |node| == |old(node)| && Keyed(node) == old(Keyed(node))
              && (Room() <==> old(Room()))
      ensures forall q :: Value(q) == if q == k then v else old(Value(q))
      ensures (s.InNode? ==> arr == old(arr)) && SameKeys(old(Now()), Now())
    {
      match s
      case InArr(i) =>
        arr := arr[i := v];
      case InNode(n) =>
        StoreKeepsInv(hash, node, cid, rank, n, v);
        StoreValues(arr, node, n, v);
        StoreKeyed(node, n, v);
        node := node[n := node[n].(val := v)];
    }

    // Adding keys

    /** `getfreepos`. */
    method GetFreePos() returns (n: Option<nat>)
      requires Valid()
      modifies `lastfree
      ensures n.Some? ==> n.value < |node| && lastfree == n.value && node[n.value].key == NilKey && !dummy
                          && TakenFrom(node, lastfree + 1)
      ensures n == None ==> (dummy || Full(node)) && Valid()
    {
      var more := lastfree > 0;
      lastfree := lastfree - 1;
      while more
        invariant lastfree < |node| && (more ==> lastfree >= 0) && (more ==> !dummy) && (!more ==> lastfree < 0)
        invariant !dummy ==> TakenFrom(node, lastfree + 1)
        invariant dummy ==> lastfree < 0
        decreases lastfree
      {
        if node[lastfree].key == NilKey {
          return Some(lastfree);
        }
        more := lastfree > 0;
        lastfree := lastfree - 1;
      }
      n := None;
    }

    /** The sizes that a table of this many entries may need are within the limits. */
    predicate Small()
      reads this
    {
      |arr| + |node| < Pow2(MAXBITS)
    }

    /** `newkey`: a slot for a key that the table does not have; it may have to grow first. */
    method NewKey(k: Key) returns (s: Slot)
      requires Valid() && k != NilKey && k != NanKey && !Present(k) && (Room() || Small())
      modifies this
      ensures Valid() && SlotOf(s, k) && forall q :: Value(q) == old(Value(q))
      ensures old(Room()) ==> arr == old(arr) && |node| == |old(node)| && !dummy && Keyed(node) <= old(Keyed(node)) + 1
      decreases if Room() then 0 else 1, 3
    {
      hide Inv, Has, ValueIn, Keyed, Full, Pow2, UniqueKeys, Main;
      InvSize(hash, node, cid, rank);
      var mp: nat := Main(hash, k, |node|);
      if node[mp].val != Nil || dummy {
        var free := GetFreePos();
        if free == None {
          Rehash(k);
          var r := Set(k);
          return r.slot;
        }
        s := InsertColliding(k, mp, free.value);
        return;
      }
      FillAdds(hash, arr, node, cid, rank, mp, k, lastfree);
      node := node[mp := node[mp].(key := k)];
      s := InNode(mp);
    }

    /** The part of `newkey` that needs a free node: the main position is taken. */
    method InsertColliding(k: Key, mp: nat, n: nat) returns (s: Slot)
      requires Inv(hash, node, cid, rank) && KeysApart(arr, node) && |arr| <= Pow2(MAXBITS) && !dummy
      requires k != NilKey && k != NanKey && !Present(k) && mp == Main(hash, k, |node|) && node[mp].val != Nil
      requires n < |node| && node[n].key == NilKey && lastfree == n && TakenFrom(node, n + 1)
      modifies `node, `cid, `rank
      ensures Valid() && SlotOf(s, k) && forall q :: Value(q) == old(Value(q))
      ensures |node| == |old(node)| && Keyed(node) <= old(Keyed(node)) + 1
    {
      hide Inv, Has, ValueIn, Keyed, UniqueKeys, Below, Unused, Main, KeysApart, TakenFrom, Added, Pow2, InArray;
      InvSize(hash, node, cid, rank);
      ValueHasKey(hash, node, cid, rank, mp);
      ghost var was := node;
      var othern: nat := Main(hash, node[mp].key, |node|);
      if othern != mp {
        var prev := Previous(mp, othern);
        MoveAdds(hash, arr, node, cid, rank, mp, n, prev, k);
        ApartNodes(hash, node, cid, rank, mp, n, prev);
        cid, rank := cid[n := cid[mp]][mp := Unused(cid)], rank[n := rank[mp]];
        node := node[prev := node[prev].(next := Some(n))];
        node := node[n := node[mp]];
        node := node[mp := Node(k, Nil, None)];
        s := InNode(mp);
        MovedIs(was, node, prev, n, mp, k);
        AddedParts(hash, arr, was, node, cid, rank, mp, k);
      } else {
        SpliceAdds(hash, arr, node, cid, rank, mp, n, k);
        cid, rank := cid[n := cid[mp]], rank[n := Below(node, rank, mp)];
        node := node[n := Node(k, Nil, node[mp].next)];
        node := node[mp := node[mp].(next := Some(n))];
        s := InNode(n);
        SplicedIs(was, node, n, mp, k);
        AddedParts(hash, arr, was, node, cid, rank, n, k);
      }
    }

    /** The loop of `newkey` that looks for the node before a displaced one. */
    method Previous(mp: nat, first: nat) returns (othern: nat)
      requires Inv(hash, node, cid, rank) && mp < |node| && node[mp].key != NilKey
      requires first == Main(hash, node[mp].key, |node|) != mp
      ensures othern < |node| && node[othern].next == Some(mp)
    {
      othern := first;
      assert KeyOk(hash, node, cid, rank, mp);
      while node[othern].next != Some(mp)
        invariant othern < |node| && othern != mp && Ahead(cid, rank, othern, mp)
        decreases After(cid, rank, othern)
      {
        PreviousStep(hash, node, cid, rank, mp, othern);
        othern := node[othern].next.value;
      }
    }

    /** `luaH_set`, `luaH_setnum` and `luaH_setstr`: a slot for the key, which is added if need be. */
    method Set(k: Key) returns (r: Outcome)
      requires Valid() && (Room() || Small() || Present(k))
      modifies this
      ensures Valid() && forall q :: Value(q) == old(Value(q))
      ensures k == NilKey ==> r == NilIndex
      ensures k == NanKey ==> r == NanIndex
      ensures k != NilKey && k != NanKey ==> r.Ok? && SlotOf(r.slot, k)
      ensures old(Room() || Present(k)) ==>
                arr == old(arr) && |node| == |old(node)| && dummy == old(dummy) && Keyed(node) <= old(Keyed(node)) + 1
      ensures old(Present(k)) ==> node == old(node)
      decreases if Room() || Present(k) then 0 else 1, 4
    {
      var s := Find(k);
      if s != NoSlot { return Ok(s); }
      if k == NilKey { return NilIndex; }
      if k == NanKey { return NanIndex; }
      s := NewKey(k);
      r := Ok(s);
    }

    // Growing

    /** `numusearray`: counts the keys of the array part, slice by slice. */
    method NumUseArray(nums: array<nat>) returns (ause: nat)
      requires Valid() && Counts(nums[..], {})
      modifies nums
      ensures Counts(nums[..], ArrayKeys(arr, |arr|)) && ause == |ArrayKeys(arr, |arr|)|
    {
      hide Pow2, Slice, ArrayKeys, Inv;
      ause := 0;
      var i, lg, ttlg := 1, 0, 1;
      SlicesNone(arr, nums[..]);
      while lg <= MAXBITS
        invariant lg <= MAXBITS + 1 && ttlg == Pow2(lg) && Counts(nums[..], ArrayKeys(arr, i - 1))
                  && ause == |ArrayKeys(arr, i - 1)|
        invariant 1 <= i <= |arr| + 1 && (SliceFrom(i, lg) || (i == |arr| + 1 && ttlg > |arr|))
        decreases MAXBITS + 1 - lg
      {
        var lc := 0;
        var lim := ttlg;
        if lim > |arr| {
          lim := |arr|;
          if i > lim {
            return;
          }
        }
        ghost var before := nums[..];
        SliceStart(i, lg);
        while i <= lim
          invariant nums[..] == before && 1 <= i <= lim + 1 && (i <= lim ==> InSlice(i, lg))
          invariant i == lim + 1 == ttlg + 1 ==> SliceFrom(i, lg + 1)
          invariant CountsBut(before, ArrayKeys(arr, i - 1), lg, lc) && ause + lc == |ArrayKeys(arr, i - 1)|
          decreases lim + 1 - i
        {
          CountSlot(arr, before, i, lg, lc);
          SliceStep(i, lg);
          if arr[i - 1] != Nil { lc := lc + 1; }
          i := i + 1;
        }
        CountsAdd(before, ArrayKeys(arr, i - 1), lg, lc);
        nums[lg] := nums[lg] + lc;
        assert nums[..] == before[lg := before[lg] + lc];
        ause := ause + lc;
        Pow2Step(lg);
        lg, ttlg := lg + 1, 2 * ttlg;
      }
      SlicesEnd(i);
    }

    /** `numusehash`: counts the entries of the hash part, and the integer keys among them. */
    method NumUseHash(nums: array<nat>) returns (totaluse: nat, ause: nat)
      requires Valid() && Counts(nums[..], ArrayKeys(arr, |arr|))
      modifies nums
      ensures Counts(nums[..], ArrayKeys(arr, |arr|) + HashKeys(node, 0)) && ause == |HashKeys(node, 0)|
      ensures totaluse == |LiveNodes(node, 0, 0)| && Candidates(ArrayKeys(arr, |arr|) + HashKeys(node, 0))
    {
      hide Pow2, Slice, ArrayKeys, Inv, Counts, LiveNodes;
      hide Candidates, UniqueKeys, KeysApart, TakenFrom, HashKeys, Counted;
      totaluse, ause := 0, 0;
      var i := |node|;
      ghost var s := ArrayKeys(arr, |arr|);
      HashKeysNone(s, node);
      LiveNodesNone(node);
      ArrayCandidates(arr);
      InvUnique(hash, node, cid, rank);
      while i != 0
        invariant 0 <= i <= |node| && Counts(nums[..], s + HashKeys(node, i)) && Candidates(s + HashKeys(node, i))
        invariant totaluse == |LiveNodes(node, 0, i)| && ause == |HashKeys(node, i)|
        decreases i
      {
        i := i - 1;
        LiveNodesNext(node, 0, i);
        HashKeysNext(s, node, i);
        if node[i].val != Nil {
          KeyNotInArray(arr, node, i);
          var one := CountInt(node[i].key, nums, s + HashKeys(node, i + 1));
          ause := ause + one;
          totaluse := totaluse + 1;
        }
      }
    }

    /** `setnodevector`: a hash part of free nodes, or the shared dummy node. */
    method SetNodeVector(size: nat)
      modifies `node, `dummy, `lastfree, `cid, `rank
      ensures Inv(hash, node, cid, rank) && dummy == (size == 0) && |node| >= size && Keyed(node) == 0
      ensures (forall i :: 0 <= i < |node| ==> node[i] == EMPTY)
              && (if dummy then node == [EMPTY] && lastfree == 0 else lastfree == |node|)
    {
      if size == 0 {
        node, dummy, lastfree := [EMPTY], true, 0;
      } else {
        CeilLog2Bounds(size);
        node := seq(Pow2(CeilLog2(size)), _ => EMPTY);
        dummy, lastfree := false, |node|;
      }
      cid, rank := seq(|node|, i => i), seq(|node|, _ => 0.0);
      EmptyInv(hash, node, cid, rank);
    }

    /** Whether the hash part has room for some more keys. */
    ghost predicate Spare(n: nat, size: nat)
      reads this
    {
      dummy == (size == 0) && Keyed(node) <= n && size <= |node|
    }

    /** The body of the two loops of `resize`: an entry is put into the new table. */
    method Reinsert(k: Key, v: Val, ghost n: nat, ghost size: nat)
      requires Valid() && k != NilKey && k != NanKey && Spare(n, size) && (InArray(k, |arr|) || n < size)
      modifies this
      ensures Valid() && |arr| == |old(arr)| && Spare(n + (if InArray(k, |arr|) then 0 else 1), size)
      ensures forall q :: Value(q) == if q == k then v else old(Value(q))
      decreases 0, 5
    {
      FullCount(node);
      var r := Set(k);
      Store(r.slot, v, k);
    }

    /** `resize`: new sizes for both parts; every entry is put into the new table. */
    method Resize(nasize: nat, nhsize: nat)
      requires Valid() && nasize <= Pow2(MAXBITS) && nhsize >= HashNeed(arr, node, nasize)
      modifies this
      ensures Valid() && forall q :: Value(q) == old(Value(q))
      ensures |arr| == nasize && Spare(old(HashNeed(arr, node, nasize)), nhsize)
      decreases 1, 1
    {
      hide Inv, ValueIn, Pow2, HashNeed, LiveSlots, LiveNodes, Keyed;
      var oldarr, nold := arr, node;
      InvUnique(hash, nold, cid, rank);
      InvKeys(hash, nold, cid, rank);
      ghost var need := HashNeed(oldarr, nold, nasize);
      ghost var live := |LiveSlots(oldarr, nasize, |oldarr|)|;
      NeedParts(oldarr, nold, nasize);
      if nasize > |oldarr| {
        arr := arr + seq(nasize - |arr|, _ => Nil);
      } else {
        arr := arr[..nasize];
      }
      SetNodeVector(nhsize);
      NewValues(oldarr, arr, nold, node, nasize);
      var i := nasize;
      ghost var n := 0;
      while i < |oldarr|
        invariant nasize <= i && (i <= |oldarr| || i == nasize) && Valid() && |arr| == nasize
        invariant Spare(n, nhsize) && (i <= |oldarr| ==> n == |LiveSlots(oldarr, nasize, i)|) && n <= live
        invariant forall q :: Value(q) == Partly(oldarr, nold, i, |nold|, q)
      {
        LiveSlotsNext(oldarr, nasize, i);
        ValueNext(oldarr, nold, i);
        if oldarr[i] != Nil {
          Reinsert(IntKey(i + 1), oldarr[i], n, nhsize);
          n := n + 1;
        }
        i := i + 1;
      }
      ghost var m := n;
      ValueArray(oldarr, nold, i);
      i := |nold|;
      LiveNodesEnd(nold, nasize);
      while i > 0
        invariant 0 <= i <= |nold| && Valid() && |arr| == nasize
        invariant Spare(n, nhsize) && n <= m + |LiveNodes(nold, nasize, i)|
        invariant forall q :: Value(q) == Partly(oldarr, nold, |oldarr|, i, q)
      {
        i := i - 1;
        LiveNodesNext(nold, nasize, i);
        ValueNode(oldarr, nold, i);
        if nold[i].val != Nil {
          Reinsert(nold[i].key, nold[i].val, n, nhsize);
          n := n + if InArray(nold[i].key, nasize) then 0 else 1;
        }
      }
      ValueAll(oldarr, nold);
    }

    /** `rehash`: makes room for one more key. */
    method Rehash(k: Key)
      requires Valid() && k != NilKey && k != NanKey && !Present(k) && Small()
      modifies this
      ensures Valid() && (forall q :: Value(q) == old(Value(q))) && (InArray(k, |arr|) || Room())
      ensures Optimal(old(AllKeys(arr, node, k)), |arr|)
      decreases 1, 2
    {
      hide Inv, ValueIn, Pow2, HashNeed, LiveSlots, LiveNodes;
      hide Keyed, Counts, Candidates, HashKeys, ArrayKeys, Optimal, Upto;
      InvUnique(hash, node, cid, rank);
      KeysDisjoint(arr, node, k);
      var nums := new nat[MAXBITS + 1](_ => 0);
      NoCounts(nums[..]);
      var totaluse := NumUseArray(nums);
      var nasize := totaluse;
      var used, ause := NumUseHash(nums);
      totaluse := totaluse + used;
      nasize := nasize + ause;
      var one := CountInt(k, nums, ArrayKeys(arr, |arr|) + HashKeys(node, 0));
      nasize := nasize + one;
      totaluse := totaluse + 1;
      var n, na := ComputeSizes(nums, nasize, AllKeys(arr, node, k));
      OptimalSmall(AllKeys(arr, node, k), n);
      NeedLeft(arr, node, k, n);
      ArrayLive(arr, |arr|);
      ghost var need := HashNeed(arr, node, n);
      Resize(n, totaluse - na);
      FullCount(node);
    }

    /** Assignment to a field. */
    method Put(k: Key, v: Val) returns (r: Outcome)
      requires Valid() && (Room() || Small() || Present(k))
      modifies this
      ensures Valid() && (r.Ok? <==> k != NilKey && k != NanKey)
      ensures forall q :: Value(q) == if r.Ok? && q == k then v else old(Value(q))
      ensures old(Present(k)) ==> SameKeys(old(Now()), Now())
    {
      r := Set(k);
      if r.Ok? { Store(r.slot, v, k); }
    }

    // Traversal

    ghost function Now(): Moment
      reads this
    {
      Moment(arr, node)
    }

    /** `findindex`: the number of a key, array part first; -1 for the key nil, none for a key that is not there. */
    method FindIndex(k: Key) returns (i: Option<int>)
      requires Valid()
      ensures k == NilKey ==> i == Some(-1)
      ensures k != NilKey ==> (i.Some? <==> Present(k))
      ensures k != NilKey && i.Some? ==> 0 <= i.value < |arr| + |node| && KeyAt(arr, node, i.value) == k
    {
      if k == NilKey {
        return Some(-1);
      } else if k.IntKey? && 0 < k.n <= |arr| {
        return Some(k.n - 1);
      }
      var s := FindInChain(k);
      i := if s.InNode? then Some(s.n + |arr|) else None;
    }

    /** `luaH_next`: the first entry with a value after the given key; a key that is not there is an error. */
    method Next(k: Key) returns (r: Entry)
      requires Valid()
      ensures r == InvalidKey <==> k != NilKey && !Present(k)
      ensures Whole(Now()) && (r != InvalidKey ==> Follows(Now(), k, r))
    {
      hide Inv, KeysApart, TakenFrom, NextPos, Pow2;
      InvWhole(hash, arr, node, cid, rank);
      var index := FindIndex(k);
      if index == None { return InvalidKey; }
      ghost var start := index.value;
      FollowsFrom(Now(), k, start);
      var i := index.value + 1;
      while i < |arr|
        invariant start < i && 0 <= i <= |arr| + |node|
        invariant forall j :: start < j < i ==> ValAt(arr, node, j) == Nil
      {
        if arr[i] != Nil {
          NextFound(arr, node, start, i);
          return Entry(IntKey(i + 1), arr[i]);
        }
        i := i + 1;
      }
      i := i - |arr|;
      while i < |node|
        invariant start < i + |arr| && 0 <= i <= |node|
        invariant forall j :: start < j < i + |arr| ==> ValAt(arr, node, j) == Nil
      {
        if node[i].val != Nil {
          NextFound(arr, node, start, i + |arr|);
          return Entry(node[i].key, node[i].val);
        }
        i := i + 1;
      }
      NextEnd(arr, node, start);
      r := AtEnd;
    }

    // Length

    /** `n` is a border: there is a value at `n`, unless `n` is 0, and none after it. */
    ghost predicate Border(n: int)
      reads this
    {
      n >= 0 && (n > 0 ==> Value(IntKey(n)) != Nil) && Value(IntKey(n + 1)) == Nil
    }

    /** `luaH_getn`. */
    method GetN() returns (n: int)
      requires Valid()
      ensures Border(n)
    {
      var j: int := |arr|;
      if j > 0 && arr[j - 1] == Nil {
        var i := 0;
        while j - i > 1
          invariant 0 <= i < j <= |arr| && arr[j - 1] == Nil && (i > 0 ==> arr[i - 1] != Nil)
          decreases j - i
        {
          var m := (i + j) / 2;
          if arr[m - 1] == Nil { j := m; } else { i := m; }
        }
        return i;
      } else if dummy {
        return j;
      }
      n := UnboundSearch(j);
    }

    /** `unbound_search`: from an index that is present, or 0. */
    method UnboundSearch(first: int) returns (n: int)
      requires Valid() && first >= 0 && (first > 0 ==> Value(IntKey(first)) != Nil)
      ensures Border(n)
    {
      var i, j := first, first + 1;
      ghost var last := LastKey(arr, node);
      var v := Get(IntKey(j));
      while v != Nil
        invariant 0 <= i < j && (i > 0 ==> Value(IntKey(i)) != Nil) && v == Value(IntKey(j))
        decreases last - i
      {
        NoneAfter(arr, node, j);
        i := j;
        j := j * 2;
        if j > MAX_INT {
          n := LinearSearch();
          return;
        }
        v := Get(IntKey(j));
      }
      while j - i > 1
        invariant 0 <= i < j && (i > 0 ==> Value(IntKey(i)) != Nil) && Value(IntKey(j)) == Nil
        decreases j - i
      {
        var m := (i + j) / 2;
        v := Get(IntKey(m));
        if v == Nil { j := m; } else { i := m; }
      }
      n := i;
    }

    /** The fallback of `unbound_search`. */
    method LinearSearch() returns (n: int)
      requires Valid()
      ensures Border(n)
    {
      var i := 1;
      ghost var last := LastKey(arr, node);
      var v := Get(IntKey(i));
      while v != Nil
        invariant i >= 1 && (i > 1 ==> Value(IntKey(i - 1)) != Nil) && v == Value(IntKey(i))
        decreases last - i
      {
        NoneAfter(arr, node, i);
        i := i + 1;
        v := Get(IntKey(i));
      }
      n := i - 1;
    }
  }

  /** The node `x` is at `n` or behind it in the chain. */
  ghost predicate Ahead(cid: seq<int>, rank: seq<real>, n: nat, x: nat) {
    n < |cid| == |rank| && x < |cid| && cid[x] == cid[n] && rank[x] <= rank[n]
  }

  lemma SearchStart(h: Hash, node: seq<Node>, cid: seq<int>, rank: seq<real>, k: Key)
    requires Inv(h, node, cid, rank) && k != NilKey
    ensures Has(node, k) ==> Ahead(cid, rank, Main(h, k, |node|), IndexOf(node, k))
  {
    if Has(node, k) { assert KeyOk(h, node, cid, rank, IndexOf(node, k)); }
  }

  lemma SearchStep(h: Hash, node: seq<Node>, cid: seq<int>, rank: seq<real>, k: Key, n: nat)
    requires Inv(h, node, cid, rank) && n < |node| && node[n].key != k
    requires Has(node, k) ==> Ahead(cid, rank, n, IndexOf(node, k))
    ensures Has(node, k) ==> node[n].next.Some? && Ahead(cid, rank, node[n].next.value, IndexOf(node, k))
    ensures node[n].next.Some? ==>
              node[n].next.value < |node| && After(cid, rank, node[n].next.value) < After(cid, rank, n)
  {
    assert LinkOk(node, cid, rank, n);
    if node[n].next.Some? { StepAfter(node, cid, rank, n); }
  }

  lemma PreviousStep(h: Hash, node: seq<Node>, cid: seq<int>, rank: seq<real>, mp: nat, n: nat)
    requires Inv(h, node, cid, rank) && n < |node| && n != mp && Ahead(cid, rank, n, mp) && node[n].next != Some(mp)
    ensures node[n].next.Some? && node[n].next.value < |node| && Ahead(cid, rank, node[n].next.value, mp)
    ensures node[n].next.value != mp && After(cid, rank, node[n].next.value) < After(cid, rank, n)
  {
    assert LinkOk(node, cid, rank, n) && Apart(cid, rank);
    StepAfter(node, cid, rank, n);
  }

  lemma ValueHasKey(h: Hash, node: seq<Node>, cid: seq<int>, rank: seq<real>, i: nat)
    requires Inv(h, node, cid, rank) && i < |node| && node[i].val != Nil
    ensures node[i].key != NilKey
  {
    assert FreeOk(node, cid, i);
  }

  // New keys change no value

  lemma FillValues(h: Hash, a: seq<Val>, node: seq<Node>, cid: seq<int>, rank: seq<real>, mp: nat, k: Key)
    requires Inv(h, node, cid, rank) && mp < |node| && node[mp].val == Nil && k != NilKey && !Has(node, k)
    ensures var d := node[mp := node[mp].(key := k)]; SameValues(a, node, a, d) && Keyed(d) <= Keyed(node) + 1
  {
    var d := node[mp := node[mp].(key := k)];
    assert UniqueKeys(d);
    forall i | 0 <= i < |node|
      ensures Kept(node, d, i) && Kept(d, node, i)
    {
      assert At(d, i, d[i].key, d[i].val) && At(node, i, node[i].key, node[i].val);
      assert FreeOk(node, cid, i);
    }
    LiveSame(a, node, d);
    KeyedMore(node, d, mp);
  }

  lemma SpliceValues(h: Hash, a: seq<Val>, node: seq<Node>, cid: seq<int>, rank: seq<real>, mp: nat, n: nat, k: Key)
    requires Inv(h, node, cid, rank) && mp < |node| && n < |node| && n != mp && node[n].key == NilKey && k != NilKey
             && !Has(node, k)
    ensures var d := node[n := Node(k, Nil, node[mp].next)][mp := node[mp].(next := Some(n))];
            SameValues(a, node, a, d) && Keyed(d) <= Keyed(node) + 1
  {
    var d := node[n := Node(k, Nil, node[mp].next)][mp := node[mp].(next := Some(n))];
    assert UniqueKeys(d);
    forall i | 0 <= i < |node|
      ensures Kept(node, d, i) && Kept(d, node, i)
    {
      assert At(d, i, d[i].key, d[i].val) && At(node, i, node[i].key, node[i].val);
      assert FreeOk(node, cid, i);
    }
    LiveSame(a, node, d);
    KeyedMore(node, d, n);
  }

  lemma MoveValues(h: Hash, a: seq<Val>, node: seq<Node>, cid: seq<int>, rank: seq<real>, mp: nat, n: nat,
                   prev: nat, k: Key)
    requires Inv(h, node, cid, rank) && mp < |node| && n < |node| && prev < |node| && n != mp && prev != mp && prev != n
    requires node[n].key == NilKey && node[mp].key != NilKey && k != NilKey && !Has(node, k)
    ensures var d := node[prev := node[prev].(next := Some(n))][n := node[mp]][mp := Node(k, Nil, None)];
            SameValues(a, node, a, d) && Keyed(d) <= Keyed(node) + 1
  {
    var d := node[prev := node[prev].(next := Some(n))][n := node[mp]][mp := Node(k, Nil, None)];
    assert UniqueKeys(d);
    forall i | 0 <= i < |node|
      ensures Kept(node, d, i) && Kept(d, node, i)
    {
      assert At(d, i, d[i].key, d[i].val) && At(node, i, node[i].key, node[i].val);
      assert At(d, n, node[mp].key, node[mp].val) && At(node, mp, node[mp].key, node[mp].val);
      assert FreeOk(node, cid, n);
    }
    LiveSame(a, node, d);
    KeyedMore(node, d, n);
  }

  /** The key was added in node `n`; no value changed, and at most one more node is taken. */
  ghost predicate Added(h: Hash, a: seq<Val>, node: seq<Node>, d: seq<Node>, c: seq<int>, r: seq<real>, n: nat,
                        k: Key) {
    && Inv(h, d, c, r) && KeysApart(a, d) && |d| == |node| && n < |d| && d[n].key == k
    && SameValues(a, node, a, d) && Keyed(d) <= Keyed(node) + 1
  }

  lemma AddedParts(h: Hash, a: seq<Val>, node: seq<Node>, d: seq<Node>, c: seq<int>, r: seq<real>, n: nat, k: Key)
    requires Added(h, a, node, d, c, r, n, k)
    ensures Inv(h, d, c, r) && KeysApart(a, d) && |d| == |node| && n < |d| && d[n].key == k && !InArray(k, |a|)
    ensures (forall q :: ValueIn(a, d, q) == ValueIn(a, node, q)) && Keyed(d) <= Keyed(node) + 1
  {
    hide Inv, ValueIn, Keyed;
    assert !InArray(d[n].key, |a|);
  }

  lemma MovedIs(c: seq<Node>, d: seq<Node>, prev: nat, n: nat, mp: nat, k: Key)
    requires prev < |c| && n < |c| && mp < |c| && prev != mp
    requires var e := c[prev := c[prev].(next := Some(n))]; d == e[n := e[mp]][mp := Node(k, Nil, None)]
    ensures d == c[prev := c[prev].(next := Some(n))][n := c[mp]][mp := Node(k, Nil, None)]
  {
  }

  lemma SplicedIs(c: seq<Node>, d: seq<Node>, n: nat, mp: nat, k: Key)
    requires n < |c| && mp < |c| && n != mp
    requires d == c[n := Node(k, Nil, c[mp].next)][mp := c[n := Node(k, Nil, c[mp].next)][mp].(next := Some(n))]
    ensures d == c[n := Node(k, Nil, c[mp].next)][mp := c[mp].(next := Some(n))]
  {
  }

  lemma FillAdds(h: Hash, a: seq<Val>, node: seq<Node>, cid: seq<int>, rank: seq<real>, mp: nat, k: Key, f: int)
    requires Inv(h, node, cid, rank) && KeysApart(a, node) && k != NilKey && k != NanKey && !Has(node, k)
             && !InArray(k, |a|)
    requires mp == Main(h, k, |node|) && node[mp].val == Nil
    ensures var d := node[mp := node[mp].(key := k)];
            Added(h, a, node, d, cid, rank, mp, k) && (TakenFrom(node, f) ==> TakenFrom(d, f))
  {
    FillKeepsInv(h, node, cid, rank, mp, k);
    FillValues(h, a, node, cid, rank, mp, k);
  }

  lemma SpliceAdds(h: Hash, a: seq<Val>, node: seq<Node>, cid: seq<int>, rank: seq<real>, mp: nat, n: nat, k: Key)
    requires Inv(h, node, cid, rank) && KeysApart(a, node) && k != NilKey && k != NanKey && !Has(node, k)
             && !InArray(k, |a|)
    requires mp == Main(h, k, |node|) && node[mp].key != NilKey && Main(h, node[mp].key, |node|) == mp && n < |node|
             && node[n].key == NilKey
    requires TakenFrom(node, n + 1)
    ensures var d := node[n := Node(k, Nil, node[mp].next)][mp := node[mp].(next := Some(n))];
            Added(h, a, node, d, cid[n := cid[mp]], rank[n := Below(node, rank, mp)], n, k) && TakenFrom(d, n)
                && n != mp
  {
    SpliceKeepsInv(h, node, cid, rank, mp, n, k);
    SpliceValues(h, a, node, cid, rank, mp, n, k);
  }

  lemma ApartNodes(h: Hash, node: seq<Node>, cid: seq<int>, rank: seq<real>, mp: nat, n: nat, prev: nat)
    requires Inv(h, node, cid, rank) && mp < |node| && node[mp].key != NilKey && n < |node| && node[n].key == NilKey
    requires prev < |node| && node[prev].next == Some(mp)
    ensures prev != mp && prev != n && n != mp
  {
    assert LinkOk(node, cid, rank, prev) && FreeOk(node, cid, n);
  }

  lemma MoveAdds(h: Hash, a: seq<Val>, node: seq<Node>, cid: seq<int>, rank: seq<real>, mp: nat, n: nat,
                 prev: nat, k: Key)
    requires Inv(h, node, cid, rank) && KeysApart(a, node) && k != NilKey && k != NanKey && !Has(node, k)
             && !InArray(k, |a|)
    requires mp == Main(h, k, |node|) && node[mp].key != NilKey && Main(h, node[mp].key, |node|) != mp && n < |node|
             && node[n].key == NilKey
    requires prev < |node| && node[prev].next == Some(mp) && TakenFrom(node, n + 1)
    ensures var d := node[prev := node[prev].(next := Some(n))][n := node[mp]][mp := Node(k, Nil, None)];
            Added(h, a, node, d, cid[n := cid[mp]][mp := Unused(cid)], rank[n := rank[mp]], mp, k) && TakenFrom(d, n)
  {
    ApartNodes(h, node, cid, rank, mp, n, prev);
    MoveKeepsInv(h, node, cid, rank, mp, n, prev, k);
    MoveValues(h, a, node, cid, rank, mp, n, prev, k);
  }

  // Traversal

  lemma InvWhole(h: Hash, a: seq<Val>, node: seq<Node>, cid: seq<int>, rank: seq<real>)
    requires Inv(h, node, cid, rank) && KeysApart(a, node)
    ensures Whole(Moment(a, node))
  {
    forall i | 0 <= i < |node| && node[i].val != Nil
      ensures node[i].key != NilKey
    {
      assert FreeOk(node, cid, i);
    }
  }

  lemma NextFound(a: seq<Val>, node: seq<Node>, start: int, i: int)
    requires -1 <= start < i < |a| + |node| && ValAt(a, node, i) != Nil
             && forall j :: start < j < i ==> ValAt(a, node, j) == Nil
    ensures NextPos(a, node, start) == Some(i)
    decreases i - start
  {
    if start + 1 < i { NextFound(a, node, start + 1, i); }
  }

  lemma NextEnd(a: seq<Val>, node: seq<Node>, start: int)
    requires -1 <= start && forall j :: start < j < |a| + |node| ==> ValAt(a, node, j) == Nil
    ensures NextPos(a, node, start) == None
    decreases |a| + |node| - start
  {
    if start + 1 < |a| + |node| { NextEnd(a, node, start + 1); }
  }

  // Length

  /** No integer key with a value is greater. */
  ghost function LastKey(a: seq<Val>, node: seq<Node>): (r: int)
    ensures r >= |a| && forall i :: 0 <= i < |node| && node[i].key.IntKey? ==> node[i].key.n <= r
    decreases |node|
  {
    if node == [] then |a|
    else
      var r := LastKey(a, node[1..]);
      assert forall i :: 1 <= i < |node| ==> node[i] == node[1..][i - 1];
      if node[0].key.IntKey? && node[0].key.n > r then node[0].key.n else r
  }

  lemma NoneAfter(a: seq<Val>, node: seq<Node>, n: int)
    requires ValueIn(a, node, IntKey(n)) != Nil
    ensures n <= LastKey(a, node)
  {
  }

  // Growing

  lemma EmptyInv(h: Hash, node: seq<Node>, cid: seq<int>, rank: seq<real>)
    requires |node| == |cid| == |rank| > 0
             && forall i :: 0 <= i < |node| ==> node[i] == EMPTY && cid[i] == i && rank[i] == 0.0
    ensures Inv(h, node, cid, rank) && Keyed(node) == 0
  {
    assert KeyedNodes(node) == {};
    forall i | 0 <= i < |node|
      ensures LinkOk(node, cid, rank, i) && KeyOk(h, node, cid, rank, i) && FreeOk(node, cid, i)
    {
    }
  }

  lemma InvKeys(h: Hash, node: seq<Node>, cid: seq<int>, rank: seq<real>)
    requires Inv(h, node, cid, rank)
    ensures forall i :: 0 <= i < |node| && node[i].val != Nil ==> node[i].key != NilKey && node[i].key != NanKey
  {
    forall i | 0 <= i < |node| && node[i].val != Nil
      ensures node[i].key != NilKey && node[i].key != NanKey
    {
      assert FreeOk(node, cid, i) && KeyOk(h, node, cid, rank, i);
    }
  }

  lemma NeedParts(a: seq<Val>, node: seq<Node>, size: nat)
    ensures HashNeed(a, node, size) == |LiveSlots(a, size, |a|)| + |LiveNodes(node, size, 0)|
    ensures |LiveSlots(a, size, size)| == 0
  {
    LiveSlotsNone(a, size, size);
  }

  lemma LiveNodesEnd(node: seq<Node>, size: nat)
    ensures |LiveNodes(node, size, |node|)| == 0
  {
    assert LiveNodes(node, size, |node|) == {};
  }

  /** The values while a table is rebuilt: those of the slots below `i`, and of the nodes from `j` on. */
  ghost function Partly(a: seq<Val>, node: seq<Node>, i: nat, j: nat, k: Key): Val {
    if InArray(k, |a|) then (if InArray(k, i) then a[k.n - 1] else Nil)
    else if j <= |node| then ValueIn([], node[j..], k) else Nil
  }

  lemma NewValues(a: seq<Val>, a': seq<Val>, node: seq<Node>, node': seq<Node>, nasize: nat)
    requires |a'| == nasize && (forall i :: 0 <= i < nasize ==> a'[i] == if i < |a| then a[i] else Nil)
    requires forall i :: 0 <= i < |node'| ==> node'[i] == EMPTY
    ensures forall q :: ValueIn(a', node', q) == Partly(a, node, nasize, |node|, q)
  {
  }

  lemma ValueNext(a: seq<Val>, node: seq<Node>, i: nat)
    requires i < |a|
    ensures forall q :: Partly(a, node, i + 1, |node|, q) ==
                          if q == IntKey(i + 1) then a[i] else Partly(a, node, i, |node|, q)
    ensures Partly(a, node, i, |node|, IntKey(i + 1)) == Nil
  {
  }

  lemma ValueArray(a: seq<Val>, node: seq<Node>, i: nat)
    requires i >= |a|
    ensures forall q :: Partly(a, node, i, |node|, q) == Partly(a, node, |a|, |node|, q)
  {
  }

  lemma ValueNode(a: seq<Val>, node: seq<Node>, i: nat)
    requires UniqueKeys(node) && i < |node| && KeysApart(a, node)
    ensures node[i].val != Nil && node[i].key != NilKey ==>
              forall q :: Partly(a, node, |a|, i, q) ==
                            if q == node[i].key then node[i].val else Partly(a, node, |a|, i + 1, q)
    ensures node[i].val == Nil ==> forall q :: Partly(a, node, |a|, i, q) == Partly(a, node, |a|, i + 1, q)
  {
    var d, e := node[i..], node[i + 1..];
    assert d == [node[i]] + e;
    assert UniqueKeys(d) && UniqueKeys(e);
    forall q
      ensures ValueIn([], d, q) == if q == node[i].key && q != NilKey then node[i].val else ValueIn([], e, q)
      ensures q == node[i].key ==> ValueIn([], e, q) == Nil
    {
      if q != NilKey && Has(e, q) {
        var j := IndexOf(e, q);
        assert d[j + 1].key == q;
        ValueAt([], d, j + 1);
      }
      if q != NilKey && Has(d, q) { ValueAt([], d, IndexOf(d, q)); }
      if q != NilKey && q == node[i].key { assert d[0].key == q; ValueAt([], d, 0); }
    }
  }

  lemma ValueAll(a: seq<Val>, node: seq<Node>)
    ensures forall q :: Partly(a, node, |a|, 0, q) == ValueIn(a, node, q)
  {
    assert node[0..] == node;
  }

  lemma NoCounts(nums: seq<nat>)
    requires |nums| == MAXBITS + 1 && forall i :: 0 <= i <= MAXBITS ==> nums[i] == 0
    ensures Counts(nums, {})
  {
    forall i | 0 <= i <= MAXBITS
      ensures |Slice({}, i)| == 0
    {
      var none: set<int> := {};
      assert Slice(none, i) == {};
    }
  }

  lemma OptimalSmall(s: set<int>, n: nat)
    requires Optimal(s, n)
    ensures n <= Pow2(MAXBITS)
  {
    if n > 0 {
      var i :| 0 <= i <= MAXBITS && n == Pow2(i);
      Pow2Monotone(i, MAXBITS);
    }
  }

  // Counting

  /** The slots from `i` on are those above a power of two. */
  predicate SliceFrom(i: int, lg: nat) { i == if lg == 0 then 1 else Pow2(lg - 1) + 1 }

  predicate InSlice(i: int, lg: nat) { 1 <= i <= Pow2(lg) && (lg > 0 ==> i > Pow2(lg - 1)) }

  /** All counts are right, but for the slice `lg`, of which `lc` are still to be added. */
  ghost predicate CountsBut(nums: seq<nat>, s: set<int>, lg: nat, lc: nat) {
    |nums| == MAXBITS + 1 && forall i :: 0 <= i <= MAXBITS ==> nums[i] + (if i == lg then lc else 0) == |Slice(s, i)|
  }

  lemma SlicesNone(a: seq<Val>, nums: seq<nat>)
    requires Counts(nums, {})
    ensures Counts(nums, ArrayKeys(a, 0)) && |ArrayKeys(a, 0)| == 0 && Pow2(0) == 1
  {
    assert ArrayKeys(a, 0) == {};
  }

  lemma CeilUnique(k: int, lg: nat)
    requires InSlice(k, lg)
    ensures CeilLog2(k) == lg
  {
    hide Pow2, CeilLog2;
    CeilLog2Bounds(k);
    var c := CeilLog2(k);
    if c < lg { Pow2Monotone(c, lg - 1); }
    if c > lg { Pow2Monotone(lg, c - 1); }
  }

  lemma CountSlot(a: seq<Val>, nums: seq<nat>, i: int, lg: nat, lc: nat)
    requires 1 <= i <= |a| && InSlice(i, lg) && CountsBut(nums, ArrayKeys(a, i - 1), lg, lc)
    ensures CountsBut(nums, ArrayKeys(a, i), lg, lc + if a[i - 1] != Nil then 1 else 0)
    ensures |ArrayKeys(a, i)| == |ArrayKeys(a, i - 1)| + if a[i - 1] != Nil then 1 else 0
  {
    hide Pow2, Slice, ArrayKeys, CeilLog2;
    ArrayKeysNext(a, i - 1);
    CeilUnique(i, lg);
    if a[i - 1] != Nil {
      forall j | 0 <= j <= MAXBITS
        ensures |Slice(ArrayKeys(a, i), j)| == |Slice(ArrayKeys(a, i - 1), j)| + if j == lg then 1 else 0
      {
        SliceAdd(ArrayKeys(a, i - 1), i, j);
      }
    }
  }

  lemma CountsAdd(nums: seq<nat>, s: set<int>, lg: nat, lc: nat)
    requires CountsBut(nums, s, lg, lc) && lg <= MAXBITS
    ensures Counts(nums[lg := nums[lg] + lc], s)
  {
  }

  lemma SliceStart(i: int, lg: nat)
    requires SliceFrom(i, lg)
    ensures InSlice(i, lg)
  {
    if lg > 0 { Pow2Step(lg - 1); }
  }

  /** After a key of a slice comes another one, or the next slice. */
  lemma SliceStep(i: int, lg: nat)
    requires InSlice(i, lg)
    ensures i + 1 <= Pow2(lg) ==> InSlice(i + 1, lg)
    ensures i == Pow2(lg) ==> SliceFrom(i + 1, lg + 1)
  {
  }

  lemma SlicesEnd(i: int)
    ensures SliceFrom(i, MAXBITS + 1) ==> i == Pow2(MAXBITS) + 1
  {
  }

  lemma LiveNodesNone(node: seq<Node>)
    ensures |LiveNodes(node, 0, |node|)| == 0
  {
    assert LiveNodes(node, 0, |node|) == {};
  }

  lemma ArrayCandidates(a: seq<Val>)
    requires |a| <= Pow2(MAXBITS)
    ensures Candidates(ArrayKeys(a, |a|))
  {
  }

  lemma InvSize(h: Hash, node: seq<Node>, cid: seq<int>, rank: seq<real>)
    requires Inv(h, node, cid, rank)
    ensures |node| == |cid| == |rank| > 0
  {
  }

  lemma InvUnique(h: Hash, node: seq<Node>, cid: seq<int>, rank: seq<real>)
    requires Inv(h, node, cid, rank)
    ensures UniqueKeys(node)
  {
  }

  lemma HashKeysNone(s: set<int>, node: seq<Node>)
    ensures s + HashKeys(node, |node|) == s && |HashKeys(node, |node|)| == 0
  {
  }

  lemma HashKeysNext(s: set<int>, node: seq<Node>, i: nat)
    requires UniqueKeys(node) && i < |node|
    ensures Counted(node[i].key) !! HashKeys(node, i + 1)
    ensures node[i].val == Nil ==> HashKeys(node, i) == HashKeys(node, i + 1)
    ensures node[i].val != Nil ==>
              && s + HashKeys(node, i + 1) + Counted(node[i].key) == s + HashKeys(node, i)
              && |HashKeys(node, i)| == |HashKeys(node, i + 1)| + |Counted(node[i].key)|
  {
    hide UniqueKeys, Counted;
    HashKeyNew(node, i);
    if node[i].val != Nil { assert HashKeys(node, i) == HashKeys(node, i + 1) + Counted(node[i].key); }
  }

  lemma KeyNotInArray(a: seq<Val>, node: seq<Node>, i: nat)
    requires KeysApart(a, node) && i < |node| && UniqueKeys(node)
    ensures Counted(node[i].key) !! ArrayKeys(a, |a|) + HashKeys(node, i + 1)
  {
    HashKeyNew(node, i);
  }

  lemma NoNan(h: Hash, node: seq<Node>, cid: seq<int>, rank: seq<real>)
    requires Inv(h, node, cid, rank)
    ensures !Has(node, NanKey)
  {
    forall i | 0 <= i < |node|
      ensures node[i].key != NanKey
    {
      assert KeyOk(h, node, cid, rank, i);
    }
  }

  lemma StoreKeepsInv(h: Hash, node: seq<Node>, cid: seq<int>, rank: seq<real>, n: nat, v: Val)
    requires Inv(h, node, cid, rank) && n < |node| && node[n].key != NilKey
    ensures Inv(h, node[n := node[n].(val := v)], cid, rank)
  {
    var d := node[n := node[n].(val := v)];
    forall i | 0 <= i < |d|
      ensures LinkOk(d, cid, rank, i) && KeyOk(h, d, cid, rank, i) && FreeOk(d, cid, i)
    {
      assert LinkOk(node, cid, rank, i) && KeyOk(h, node, cid, rank, i) && FreeOk(node, cid, i);
    }
  }

  lemma StoreValues(a: seq<Val>, node: seq<Node>, n: nat, v: Val)
    requires UniqueKeys(node) && n < |node| && node[n].key != NilKey && !InArray(node[n].key, |a|)
    ensures var d := node[n := node[n].(val := v)];
            forall q :: ValueIn(a, d, q) == if q == node[n].key then v else ValueIn(a, node, q)
  {
    var d := node[n := node[n].(val := v)];
    assert UniqueKeys(d);
    ValueAt(a, d, n);
    forall q
      ensures ValueIn(a, d, q) == if q == node[n].key then v else ValueIn(a, node, q)
    {
      if q != NilKey && q != node[n].key && !InArray(q, |a|) {
        if Has(node, q) { ValueAt(a, d, IndexOf(node, q)); }
        if Has(d, q) { ValueAt(a, node, IndexOf(d, q)); }
      }
    }
  }

  lemma StoreKeyed(node: seq<Node>, n: nat, v: Val)
    requires n < |node|
    ensures var d := node[n := node[n].(val := v)]; Keyed(d) == Keyed(node) && (Full(d) <==> Full(node))
  {
    var d := node[n := node[n].(val := v)];
    assert KeyedNodes(d) == KeyedNodes(node);
    FullCount(d);
    FullCount(node);
  }
}
