/** What a table holds, as a function from keys to values, and how many nodes its hash part needs. */
module TableValues {
  import opened Common
  import opened TableNodes
  import opened TableSizes

  predicate InArray(k: Key, size: nat) { k.IntKey? && 1 <= k.n <= size }

  ghost function IndexOf(node: seq<Node>, k: Key): (i: nat)
    requires Has(node, k)
    ensures i < |node| && node[i].key == k
  {
    var i :| 0 <= i < |node| && node[i].key == k;
    i
  }

  /** The value of a key; a key that is not there has the value nil. */
  ghost function ValueIn(a: seq<Val>, node: seq<Node>, k: Key): Val {
    if InArray(k, |a|) then a[k.n - 1] else if k != NilKey && Has(node, k) then node[IndexOf(node, k)].val else Nil
  }

  lemma ValueAt(a: seq<Val>, node: seq<Node>, i: nat)
    requires UniqueKeys(node) && i < |node| && node[i].key != NilKey && !InArray(node[i].key, |a|)
    ensures ValueIn(a, node, node[i].key) == node[i].val
  {
    assert node[i].key == node[IndexOf(node, node[i].key)].key;
  }

  ghost predicate SameValues(a: seq<Val>, node: seq<Node>, a': seq<Val>, node': seq<Node>) {
    forall k :: ValueIn(a', node', k) == ValueIn(a, node, k)
  }

  /** Some node has the key and the value of this one. */
  ghost predicate Kept(node: seq<Node>, d: seq<Node>, i: nat)
    requires i < |node|
  {
    node[i].val == Nil || node[i].key == NilKey || exists j: nat :: At(d, j, node[i].key, node[i].val)
  }

  predicate At(d: seq<Node>, j: nat, k: Key, v: Val) { j < |d| && d[j].key == k && d[j].val == v }

  /** Nodes with the same live entries hold the same values. */
  lemma LiveSame(a: seq<Val>, node: seq<Node>, d: seq<Node>)
    requires UniqueKeys(node) && UniqueKeys(d)
    requires forall i :: 0 <= i < |node| ==> Kept(node, d, i)
    requires forall i :: 0 <= i < |d| ==> Kept(d, node, i)
    ensures SameValues(a, node, a, d)
  {
    forall k
      ensures ValueIn(a, d, k) == ValueIn(a, node, k)
    {
      if !InArray(k, |a|) && k != NilKey {
        if Has(node, k) { LiveValue(a, node, d, IndexOf(node, k)); }
        if Has(d, k) { LiveValue(a, d, node, IndexOf(d, k)); }
      }
    }
  }

  lemma LiveValue(a: seq<Val>, node: seq<Node>, d: seq<Node>, i: nat)
    requires UniqueKeys(d) && i < |node| && Kept(node, d, i) && node[i].key != NilKey && !InArray(node[i].key, |a|)
    ensures node[i].val != Nil ==> Has(d, node[i].key) && ValueIn(a, d, node[i].key) == node[i].val
  {
    if node[i].val != Nil {
      var j: nat :| At(d, j, node[i].key, node[i].val);
      ValueAt(a, d, j);
    }
  }

  // How many nodes are taken

  ghost function KeyedNodes(node: seq<Node>): set<nat> { set i: nat | i < |node| && node[i].key != NilKey }

  ghost function Keyed(node: seq<Node>): nat { |KeyedNodes(node)| }

  predicate Full(node: seq<Node>) { forall i :: 0 <= i < |node| ==> node[i].key != NilKey }

  function Indices(n: nat): (r: set<nat>)
    ensures |r| == n && forall i: nat :: i in r <==> i < n
  {
    if n == 0 then {} else Indices(n - 1) + {n - 1}
  }

  /** There is a free node exactly when not all are taken. */
  lemma FullCount(node: seq<Node>)
    ensures Keyed(node) <= |node| && (Keyed(node) == |node| <==> Full(node))
  {
    assert KeyedNodes(node) <= Indices(|node|);
    SubsetSize(KeyedNodes(node), Indices(|node|));
    if Full(node) {
      assert KeyedNodes(node) == Indices(|node|);
    } else {
      var i :| 0 <= i < |node| && node[i].key == NilKey;
      assert KeyedNodes(node) <= Indices(|node|) - {i};
      SubsetSize(KeyedNodes(node), Indices(|node|) - {i});
    }
  }

  /** At most one more node is taken. */
  lemma KeyedMore(node: seq<Node>, d: seq<Node>, n: nat)
    requires |d| == |node| && forall i :: 0 <= i < |node| && i != n && d[i].key != NilKey ==> node[i].key != NilKey
    ensures Keyed(d) <= Keyed(node) + 1
  {
    assert KeyedNodes(d) <= KeyedNodes(node) + {n};
    SubsetSize(KeyedNodes(d), KeyedNodes(node) + {n});
  }

  // What `resize` puts into the hash part

  ghost function LiveSlots(a: seq<Val>, lo: nat, hi: nat): set<nat> {
    set i: nat | lo <= i < hi && i < |a|
    && a[i] != Nil
  }

  ghost function LiveNodes(node: seq<Node>, size: nat, lo: nat): set<nat> {
    set i: nat | lo <= i < |node| && node[i].val != Nil && !InArray(node[i].key, size)
  }

  /** The entries that do not go to an array part of the given size. */
  ghost function HashNeed(a: seq<Val>, node: seq<Node>, size: nat): nat {
    |LiveSlots(a, size, |a|)| + |LiveNodes(node, size, 0)|
  }

  lemma LiveSlotsNext(a: seq<Val>, lo: nat, hi: nat)
    requires lo <= hi < |a|
    ensures |LiveSlots(a, lo, hi + 1)| == |LiveSlots(a, lo, hi)| + if a[hi] != Nil then 1 else 0
    ensures |LiveSlots(a, lo, hi + 1)| <= |LiveSlots(a, lo, |a|)|
  {
    assert LiveSlots(a, lo, hi + 1) == LiveSlots(a, lo, hi) + if a[hi] != Nil then {hi} else {};
    SubsetSize(LiveSlots(a, lo, hi + 1), LiveSlots(a, lo, |a|));
  }

  lemma LiveNodesNext(node: seq<Node>, size: nat, lo: nat)
    requires lo < |node|
    ensures |LiveNodes(node, size, lo)| ==
              |LiveNodes(node, size, lo + 1)| + if node[lo].val != Nil && !InArray(node[lo].key, size) then 1 else 0
    ensures |LiveNodes(node, size, lo)| <= |LiveNodes(node, size, 0)|
  {
    var one: set<nat> := {lo};
    assert LiveNodes(node, size, lo) ==
             LiveNodes(node, size, lo + 1) + if node[lo].val != Nil && !InArray(node[lo].key, size) then one else {};
    SubsetSize(LiveNodes(node, size, lo), LiveNodes(node, size, 0));
  }

  // The integer keys that `rehash` counts

  /** The indices of the array part up to `hi` that are in use. */
  ghost function ArrayKeys(a: seq<Val>, hi: nat): (r: set<int>)
    ensures forall k :: k in r <==> 1 <= k <= hi && k <= |a| && a[k - 1] != Nil
    decreases hi
  {
    if hi == 0 then {} else ArrayKeys(a, hi - 1) + if hi <= |a| && a[hi - 1] != Nil then {hi} else {}
  }

  /** The integer keys with a value in the nodes from `lo` on. */
  ghost function HashKeys(node: seq<Node>, lo: nat): set<int>
    decreases |node| - lo
  {
    if lo >= |node| then {} else HashKeys(node, lo + 1) + if node[lo].val != Nil then Counted(node[lo].key) else {}
  }

  lemma {:induction false} HashKeysFrom(node: seq<Node>, lo: nat, k: int)
    requires k in HashKeys(node, lo)
    ensures exists i :: lo <= i < |node| && node[i].val != Nil && node[i].key == IntKey(k)
    ensures 1 <= k <= Pow2(MAXBITS)
    decreases |node| - lo
  {
    if k in HashKeys(node, lo + 1) {
      HashKeysFrom(node, lo + 1, k);
      var i :| lo + 1 <= i < |node| && node[i].val != Nil && node[i].key == IntKey(k);
      assert lo <= i < |node|;
    } else {
      assert node[lo].key == IntKey(k);
    }
  }

  lemma ArrayKeysNext(a: seq<Val>, hi: nat)
    requires hi < |a|
    ensures ArrayKeys(a, hi + 1) == (if a[hi] != Nil then ArrayKeys(a, hi) + {hi + 1} else ArrayKeys(a, hi))
            && hi + 1 !in ArrayKeys(a, hi)
  {
  }

  /** The keys of a node are not among those of later nodes. */
  lemma HashKeyNew(node: seq<Node>, lo: nat)
    requires UniqueKeys(node) && lo < |node|
    ensures Counted(node[lo].key) !! HashKeys(node, lo + 1)
  {
    forall k | k in Counted(node[lo].key)
      ensures k !in HashKeys(node, lo + 1)
    {
      if k in HashKeys(node, lo + 1) {
        HashKeysFrom(node, lo + 1, k);
      }
    }
  }

  /** Of the entries in the array, those above `n` are not among the keys up to `n`. */
  lemma {:induction false} ArraySplit(a: seq<Val>, n: nat, hi: nat)
    requires hi <= |a|
    ensures |LiveSlots(a, 0, hi)| == |LiveSlots(a, n, hi)| + |Upto(ArrayKeys(a, hi), n)|
    decreases hi
  {
    hide *;
    if hi == 0 {
      LiveSlotsNone(a, 0, 0);
      LiveSlotsNone(a, n, 0);
      ArrayKeysNone(a, n);
    } else {
      ArraySplit(a, n, hi - 1);
      LiveSlotsNext(a, 0, hi - 1);
      ArrayUpto(a, n, hi - 1);
      if hi - 1 >= n {
        LiveSlotsNext(a, n, hi - 1);
      } else {
        LiveSlotsNone(a, n, hi);
        LiveSlotsNone(a, n, hi - 1);
      }
    }
  }

  lemma ArrayUpto(a: seq<Val>, n: nat, hi: nat)
    requires hi < |a|
    ensures |Upto(ArrayKeys(a, hi + 1), n)| == |Upto(ArrayKeys(a, hi), n)| + if a[hi] != Nil && hi < n then 1 else 0
  {
    hide *;
    ArrayKeysNext(a, hi);
    UptoAdd(ArrayKeys(a, hi), hi + 1, n);
  }

  lemma {:induction false} ArrayLive(a: seq<Val>, hi: nat)
    requires hi <= |a|
    ensures |LiveSlots(a, 0, hi)| == |ArrayKeys(a, hi)|
    decreases hi
  {
    hide *;
    if hi == 0 {
      LiveSlotsNone(a, 0, 0);
      ArrayKeysNone(a, 0);
    } else {
      ArrayLive(a, hi - 1);
      ArrayKeysNext(a, hi - 1);
      LiveSlotsNext(a, 0, hi - 1);
    }
  }

  lemma LiveSlotsNone(a: seq<Val>, n: nat, hi: nat)
    requires hi <= n
    ensures |LiveSlots(a, n, hi)| == 0
  {
    assert LiveSlots(a, n, hi) == {};
  }

  lemma ArrayKeysNone(a: seq<Val>, n: nat)
    ensures |ArrayKeys(a, 0)| == |Upto(ArrayKeys(a, 0), n)| == 0
  {
    assert ArrayKeys(a, 0) == {} && Upto(ArrayKeys(a, 0), n) == {};
  }

  lemma UptoAdd(s: set<int>, k: int, n: int)
    requires k !in s
    ensures |Upto(s + {k}, n)| == |Upto(s, n)| + if k <= n then 1 else 0
  {
    if k <= n { assert Upto(s + {k}, n) == Upto(s, n) + {k}; } else { assert Upto(s + {k}, n) == Upto(s, n); }
  }

  lemma UptoUnion(s: set<int>, t: set<int>, n: int)
    requires s !! t
    ensures |Upto(s + t, n)| == |Upto(s, n)| + |Upto(t, n)|
  {
    assert Upto(s + t, n) == Upto(s, n) + Upto(t, n);
  }

  /** Of the entries in the nodes, those that do not go to an array of size `n` are not among the keys up to `n`. */
  lemma {:induction false} HashSplit(node: seq<Node>, n: nat, lo: nat)
    requires UniqueKeys(node) && lo <= |node| && n <= Pow2(MAXBITS)
    ensures |LiveNodes(node, 0, lo)| == |LiveNodes(node, n, lo)| + |Upto(HashKeys(node, lo), n)|
    decreases |node| - lo
  {
    hide *;
    if lo == |node| {
      HashNone(node, n);
    } else {
      HashSplit(node, n, lo + 1);
      LiveNodesNext(node, 0, lo);
      LiveNodesNext(node, n, lo);
      HashUpto(node, n, lo);
      NoneInArray(node[lo].key);
    }
  }

  lemma HashNone(node: seq<Node>, n: nat)
    ensures |LiveNodes(node, 0, |node|)| == |LiveNodes(node, n, |node|)| == |Upto(HashKeys(node, |node|), n)| == 0
  {
    var lo := |node|;
    assert LiveNodes(node, 0, lo) == {} && LiveNodes(node, n, lo) == {} && Upto(HashKeys(node, lo), n) == {};
  }

  lemma NoneInArray(k: Key)
    ensures !InArray(k, 0)
  {
  }

  lemma HashUpto(node: seq<Node>, n: nat, lo: nat)
    requires UniqueKeys(node) && lo < |node| && n <= Pow2(MAXBITS)
    ensures |Upto(HashKeys(node, lo), n)| ==
              |Upto(HashKeys(node, lo + 1), n)| + if node[lo].val != Nil && InArray(node[lo].key, n) then 1 else 0
  {
    hide UniqueKeys, Pow2, Upto;
    HashKeyNew(node, lo);
    if node[lo].val != Nil {
      UptoUnion(HashKeys(node, lo + 1), Counted(node[lo].key), n);
      CountedUpto1(node[lo].key, n);
    } else {
      assert HashKeys(node, lo) == HashKeys(node, lo + 1);
    }
  }

  lemma CountedUpto1(k: Key, n: nat)
    requires n <= Pow2(MAXBITS)
    ensures |Upto(Counted(k), n)| == if InArray(k, n) then 1 else 0
  {
    if InArray(k, n) { assert Upto(Counted(k), n) == {k.n}; } else { assert Upto(Counted(k), n) == {}; }
  }

  /** All keys that count towards the size of the array: those in use, and the new one. */
  ghost function AllKeys(a: seq<Val>, node: seq<Node>, k: Key): set<int> {
    ArrayKeys(a, |a|) + HashKeys(node, 0) + Counted(k)
  }

  /** What is left for the hash part when the keys up to `n` go to the array. */
  lemma NeedLeft(a: seq<Val>, node: seq<Node>, k: Key, n: nat)
    requires UniqueKeys(node) && n <= Pow2(MAXBITS)
    requires ArrayKeys(a, |a|) !! HashKeys(node, 0) && Counted(k) !! ArrayKeys(a, |a|) + HashKeys(node, 0)
    ensures |LiveSlots(a, 0, |a|)| + |LiveNodes(node, 0, 0)| + 1 - |Upto(AllKeys(a, node, k), n)|
         == HashNeed(a, node, n) + if InArray(k, n) then 0 else 1
  {
    ArraySplit(a, n, |a|);
    HashSplit(node, n, 0);
    CountedUpto1(k, n);
    UptoUnion(ArrayKeys(a, |a|), HashKeys(node, 0), n);
    UptoUnion(ArrayKeys(a, |a|) + HashKeys(node, 0), Counted(k), n);
    if n < |a| {
    } else {
      assert LiveSlots(a, n, |a|) == {};
    }
  }

  lemma KeysDisjoint(a: seq<Val>, node: seq<Node>, k: Key)
    requires (forall i :: 0 <= i < |node| ==> !InArray(node[i].key, |a|)) && !InArray(k, |a|) && !Has(node, k)
    ensures ArrayKeys(a, |a|) !! HashKeys(node, 0) && Counted(k) !! ArrayKeys(a, |a|) + HashKeys(node, 0)
  {
    hide HashKeys;
    forall x | x in HashKeys(node, 0)
      ensures x !in ArrayKeys(a, |a|) && x !in Counted(k)
    {
      HashKeysFrom(node, 0, x);
      var i :| 0 <= i < |node| && node[i].val != Nil && node[i].key == IntKey(x);
      assert !InArray(node[i].key, |a|);
    }
  }

  ghost predicate KeysApart(a: seq<Val>, node: seq<Node>) {
    forall i :: 0 <= i < |node| ==> !InArray(node[i].key, |a|)
  }

  // Traversal: the slots of the array part come first, then the nodes

  function KeyAt(a: seq<Val>, node: seq<Node>, p: nat): Key
    requires p < |a| + |node|
  {
    if p < |a| then IntKey(p + 1) else node[p - |a|].key
  }

  function ValAt(a: seq<Val>, node: seq<Node>, p: nat): Val
    requires p < |a| + |node|
  {
    if p < |a| then a[p] else node[p - |a|].val
  }

  /** The first place after `p` that has a value. */
  function NextPos(a: seq<Val>, node: seq<Node>, p: int): (r: Option<nat>)
    requires p >= -1
    ensures r.Some? ==> p < r.value < |a| + |node| && ValAt(a, node, r.value) != Nil
    ensures forall j :: p < j < (if r.Some? then r.value else |a| + |node|) ==> ValAt(a, node, j) == Nil
    decreases |a| + |node| - p
  {
    if p + 1 >= |a| + |node| then None
    else if ValAt(a, node, p + 1) != Nil then Some(p + 1)
    else NextPos(a, node, p + 1)
  }

  /** What a step of a traversal gives. */
  datatype Entry = Entry(key: Key, val: Val) | AtEnd | InvalidKey

  /** The number that a traversal begins from after a key. */
  ghost predicate NumberOf(a: seq<Val>, node: seq<Node>, k: Key, i: int) {
    if k == NilKey then i == -1 else 0 <= i < |a| + |node| && KeyAt(a, node, i) == k
  }

  function EntryAfter(a: seq<Val>, node: seq<Node>, i: int): Entry
    requires i >= -1
  {
    match NextPos(a, node, i)
    case None => AtEnd
    case Some(p) => Entry(KeyAt(a, node, p), ValAt(a, node, p))
  }

  /** A moment of a traversal. */
  datatype Moment = Moment(a: seq<Val>, node: seq<Node>)

  /** The keys of the nodes differ from each other and from those of the array, and only a key can have a value. */
  ghost predicate Whole(m: Moment) {
    UniqueKeys(m.node) && KeysApart(m.a, m.node)
    && forall i :: 0 <= i < |m.node| && m.node[i].val != Nil ==> m.node[i].key != NilKey
  }

  /** Values were changed, but no key was added: the numbering is the same. */
  ghost predicate SameKeys(m: Moment, m': Moment) {
    |m'.a| == |m.a| && |m'.node| == |m.node|
        && forall p :: 0 <= p < |m.a| + |m.node| ==> KeyAt(m'.a, m'.node, p) == KeyAt(m.a, m.node, p)
  }

  function Before(v: seq<nat>, i: nat): int
    requires i <= |v|
  {
    if i == 0 then -1 else v[i - 1]
  }

  /** The places that a traversal visits; before each step the values may have changed. */
  ghost predicate Visits(run: seq<Moment>, v: seq<nat>) {
    && |run| == |v| + 1
    && (forall i, j :: 0 <= i < |run| && 0 <= j < |run| ==> SameKeys(run[i], run[j]))
    && forall i :: 0 <= i < |v| ==> NextPos(run[i].a, run[i].node, if i == 0 then -1 else v[i - 1]) == Some(v[i])
  }

  /** The traversal is at its end. */
  ghost predicate Ended(run: seq<Moment>, v: seq<nat>)
    requires |run| == |v| + 1
  {
    NextPos(run[|v|].a, run[|v|].node, if v == [] then -1 else v[|v| - 1]) == None
  }

  /** No place is visited twice, and there are no more visits than places. */
  lemma {:induction false} VisitsIncrease(run: seq<Moment>, v: seq<nat>, i: nat, j: nat)
    requires Visits(run, v) && i < j < |v|
    ensures v[i] < v[j] < |run[0].a| + |run[0].node|
    decreases j - i
  {
    assert SameKeys(run[0], run[j]) && NextPos(run[j].a, run[j].node, v[j - 1]) == Some(v[j]);
    if i + 1 < j { VisitsIncrease(run, v, i, j - 1); }
  }

  lemma {:induction false} VisitsBound(run: seq<Moment>, v: seq<nat>, i: nat)
    requires Visits(run, v) && i < |v|
    ensures i <= v[i] < |run[0].a| + |run[0].node|
  {
    assert SameKeys(run[0], run[i]) && NextPos(run[i].a, run[i].node, if i == 0 then -1 else v[i - 1]) == Some(v[i]);
    if i > 0 { VisitsBound(run, v, i - 1); VisitsIncrease(run, v, i - 1, i); }
  }

  /** A place that always has a value is visited, unless the traversal has not come so far. */
  lemma {:induction false} VisitsAll(run: seq<Moment>, v: seq<nat>, p: nat, n: nat)
    requires Visits(run, v) && n <= |v| && p < |run[0].a| + |run[0].node|
    requires forall i :: 0 <= i < |run| ==> p < |run[i].a| + |run[i].node| && ValAt(run[i].a, run[i].node, p) != Nil
    ensures p in v[..n] || n == 0 || v[n - 1] < p
    decreases n
  {
    if n > 0 {
      VisitsAll(run, v, p, n - 1);
      var last := if n == 1 then -1 else v[n - 2];
      assert NextPos(run[n - 1].a, run[n - 1].node, last) == Some(v[n - 1]);
      assert v[..n] == v[..n - 1] + [v[n - 1]];
      if p !in v[..n - 1] { assert last < p; }
    }
  }

  /**
    A traversal that has ended came to each place that had a value all along exactly once, and took at most one step
    for each place; clearing fields on the way does not matter.
   */
  lemma PlacesComplete(run: seq<Moment>, v: seq<nat>, p: nat)
    requires Visits(run, v) && Ended(run, v) && p < |run[0].a| + |run[0].node|
    requires forall i :: 0 <= i < |run| ==> p < |run[i].a| + |run[i].node| && ValAt(run[i].a, run[i].node, p) != Nil
    ensures p in v && |v| <= |run[0].a| + |run[0].node|
    ensures forall i, j :: 0 <= i < |v| && 0 <= j < |v| && v[i] == v[j] == p ==> i == j
  {
    VisitsAll(run, v, p, |v|);
    assert v[..|v|] == v;
    if |v| > 0 { VisitsBound(run, v, |v| - 1); }
    forall i, j | 0 <= i < |v| && 0 <= j < |v| && v[i] == v[j] == p
      ensures i == j
    {
      if i < j { VisitsIncrease(run, v, i, j); }
      if j < i { VisitsIncrease(run, v, j, i); }
    }
  }

  /** The keys of the places that hold one are different. */
  lemma KeysNumbered(a: seq<Val>, node: seq<Node>, p: nat, q: nat)
    requires UniqueKeys(node) && KeysApart(a, node)
    requires p < |a| + |node| && q < |a| + |node| && KeyAt(a, node, p) == KeyAt(a, node, q) != NilKey
    ensures p == q
  {
  }

  // Traversal by keys

  /** The entry that `luaH_next` gives after a key, or the end. */
  ghost predicate Follows(m: Moment, k: Key, r: Entry) {
    exists i :: NumberOf(m.a, m.node, k, i) && r == EntryAfter(m.a, m.node, i)
  }

  lemma FollowsFrom(m: Moment, k: Key, i: int)
    requires NumberOf(m.a, m.node, k, i)
    ensures Follows(m, k, EntryAfter(m.a, m.node, i))
  {
  }

  /** The key that the call `i` gets. */
  function KeyBefore(es: seq<Entry>, i: nat): Key
    requires i <= |es| && forall j :: 0 <= j < i ==> es[j].Entry?
  {
    if i == 0 then NilKey else es[i - 1].key
  }

  /** Calls of `luaH_next`, each with the key that the call before it gave; between them the values may change. */
  ghost predicate Calls(run: seq<Moment>, es: seq<Entry>) {
    && |run| == |es| + 1 && (forall i :: 0 <= i < |es| ==> es[i].Entry?)
    && (forall i, j :: 0 <= i < |run| && 0 <= j < |run| ==> SameKeys(run[i], run[j]))
    && (forall i :: 0 <= i < |run| ==> Whole(run[i]))
    && forall i :: 0 <= i < |es| ==> Follows(run[i], KeyBefore(es, i), es[i])
  }

  /** The number of a key that holds one is its only place. */
  lemma NumberIs(m: Moment, k: Key, i: int, p: nat)
    requires Whole(m) && k != NilKey && NumberOf(m.a, m.node, k, i) && p < |m.a| + |m.node|
             && KeyAt(m.a, m.node, p) == k
    ensures i == p
  {
    KeysNumbered(m.a, m.node, i, p);
  }

  /** The entry is that of the first place with a value behind another. */
  ghost predicate PlaceOk(m: Moment, e: Entry, last: int, p: nat) {
    last >= -1 && NextPos(m.a, m.node, last) == Some(p) && e == Entry(KeyAt(m.a, m.node, p), ValAt(m.a, m.node, p))
    && e.key != NilKey
  }

  /** The places that such calls come to. */
  ghost predicate PlacesOf(run: seq<Moment>, es: seq<Entry>, v: seq<nat>, n: nat)
    requires |run| == |es| + 1 && n <= |es|
  {
    |v| == n && forall i :: 0 <= i < n ==> PlaceOk(run[i], es[i], Before(v, i), v[i])
  }

  /** A call that goes on from the place of its key. */
  lemma CallFrom(run: seq<Moment>, es: seq<Entry>, v: seq<nat>, n: nat, r: Entry)
    requires Calls(run, es) && n <= |es| && PlacesOf(run, es, v, n) && Follows(run[n], KeyBefore(es, n), r)
    ensures r == EntryAfter(run[n].a, run[n].node, Before(v, n))
  {
    hide NextPos, Whole;
    var m, k := run[n], KeyBefore(es, n);
    var i :| NumberOf(m.a, m.node, k, i) && r == EntryAfter(m.a, m.node, i);
    if n > 0 {
      assert SameKeys(run[n - 1], m) && PlaceOk(run[n - 1], es[n - 1], Before(v, n - 1), v[n - 1]);
      NumberIs(m, k, i, v[n - 1]);
    }
  }

  lemma {:induction false} CallPlaces(run: seq<Moment>, es: seq<Entry>, n: nat) returns (v: seq<nat>)
    requires Calls(run, es) && n <= |es|
    ensures PlacesOf(run, es, v, n)
    decreases n
  {
    hide *;
    v := [];
    NoPlaces(run, es);
    if n > 0 {
      var w := CallPlaces(run, es, n - 1);
      v := NextPlace(run, es, w, n - 1);
    }
  }

  lemma NoPlaces(run: seq<Moment>, es: seq<Entry>)
    requires Calls(run, es)
    ensures |run| == |es| + 1 && PlacesOf(run, es, [], 0)
  {
  }

  lemma NextPlace(run: seq<Moment>, es: seq<Entry>, v: seq<nat>, n: nat) returns (w: seq<nat>)
    requires Calls(run, es) && n < |es| && PlacesOf(run, es, v, n)
    ensures PlacesOf(run, es, w, n + 1)
  {
    hide NextPos, ValueIn, Whole, SameKeys, Follows, PlaceOk, EntryAfter;
    CallFrom(run, es, v, n, es[n]);
    var p := PlaceFrom(run[n], es[n], Before(v, n));
    w := v + [p];
    forall i | 0 <= i <= n
      ensures PlaceOk(run[i], es[i], Before(w, i), w[i])
    {
      assert Before(w, i) == Before(v, i);
      if i < n { assert PlaceOk(run[i], es[i], Before(v, i), v[i]); }
    }
  }

  lemma PlaceFrom(m: Moment, e: Entry, last: int) returns (p: nat)
    requires Whole(m) && last >= -1 && e.Entry? && e == EntryAfter(m.a, m.node, last)
    ensures PlaceOk(m, e, last, p)
  {
    p := NextPos(m.a, m.node, last).value;
    PlaceKey(m, p);
  }

  lemma PlaceKey(m: Moment, p: nat)
    requires Whole(m) && p < |m.a| + |m.node| && ValAt(m.a, m.node, p) != Nil
    ensures KeyAt(m.a, m.node, p) != NilKey
  {
  }

  lemma PlaceOf(m: Moment, k: Key) returns (p: nat)
    requires Whole(m) && ValueIn(m.a, m.node, k) != Nil
    ensures p < |m.a| + |m.node| && KeyAt(m.a, m.node, p) == k != NilKey
    ensures ValAt(m.a, m.node, p) == ValueIn(m.a, m.node, k)
  {
    p := if InArray(k, |m.a|) then k.n - 1 else |m.a| + IndexOf(m.node, k);
  }

  /** A key that has a value all the time has it at one place. */
  lemma SamePlace(m: Moment, m': Moment, k: Key, p: nat)
    requires SameKeys(m, m') && Whole(m') && p < |m.a| + |m.node| && KeyAt(m.a, m.node, p) == k
    requires ValueIn(m'.a, m'.node, k) != Nil
    ensures p < |m'.a| + |m'.node| && ValAt(m'.a, m'.node, p) == ValueIn(m'.a, m'.node, k)
  {
    var q := PlaceOf(m', k);
    KeysNumbered(m'.a, m'.node, p, q);
  }

  /** The key has a value all the time. */
  ghost predicate Stays(run: seq<Moment>, k: Key) {
    forall i :: 0 <= i < |run| ==> ValueIn(run[i].a, run[i].node, k) != Nil
  }

  ghost predicate Given(es: seq<Entry>, k: Key) { exists i :: 0 <= i < |es| && es[i].Entry? && es[i].key == k }

  /**
    Calls of `luaH_next` from nil to the end, with values changed or set to nil between them but no key added: each
    key that has a value all the time is given exactly once, with the value that it has then; no key is given twice,
    and the calls are not more than the places and one.
   */
  lemma TraversalComplete(run: seq<Moment>, es: seq<Entry>)
    requires Calls(run, es) && Follows(run[|es|], KeyBefore(es, |es|), AtEnd)
    ensures forall k :: Stays(run, k) ==> Given(es, k)
    ensures forall i :: 0 <= i < |es| ==> es[i].val == ValueIn(run[i].a, run[i].node, es[i].key) != Nil
    ensures forall i, j :: 0 <= i < j < |es| ==> es[i].key != es[j].key
    ensures |es| <= |run[0].a| + |run[0].node|
  {
    hide *;
    var v := CallPlaces(run, es, |es|);
    CallParts(run, es);
    PlacesVisited(run, es, v);
    forall k | Stays(run, k)
      ensures Given(es, k)
    {
      KeyGiven(run, es, v, k);
    }
    forall i | 0 <= i < |es|
      ensures es[i].val == ValueIn(run[i].a, run[i].node, es[i].key) != Nil
    {
      GivenValue(run, es, v, i);
    }
    forall i, j | 0 <= i < j < |es|
      ensures es[i].key != es[j].key
    {
      GivenOnce(run, es, v, i, j);
    }
    if |es| > 0 { VisitsBound(run, v, |es| - 1); }
  }

  lemma CallParts(run: seq<Moment>, es: seq<Entry>)
    requires Calls(run, es)
    ensures |run| == |es| + 1 && forall i :: 0 <= i < |es| ==> es[i].Entry?
  {
  }

  lemma PlaceStep(run: seq<Moment>, es: seq<Entry>, v: seq<nat>, n: nat, i: nat)
    requires |run| == |es| + 1 && n <= |es| && PlacesOf(run, es, v, n) && i < n
    ensures |v| == n && NextPos(run[i].a, run[i].node, if i == 0 then -1 else v[i - 1]) == Some(v[i])
  {
    hide NextPos, KeyAt, ValAt;
    assert PlaceOk(run[i], es[i], Before(v, i), v[i]);
  }

  lemma PlacesVisited(run: seq<Moment>, es: seq<Entry>, v: seq<nat>)
    requires Calls(run, es) && PlacesOf(run, es, v, |es|) && Follows(run[|es|], KeyBefore(es, |es|), AtEnd)
    ensures Visits(run, v) && Ended(run, v) && |v| == |es|
  {
    hide NextPos, ValueIn, Whole, SameKeys, Follows, KeyAt, ValAt, PlaceOk, KeyBefore, PlacesOf;
    CallFrom(run, es, v, |es|, AtEnd);
    PlacesLength(run, es, v, |es|);
    forall i | 0 <= i < |v|
      ensures NextPos(run[i].a, run[i].node, if i == 0 then -1 else v[i - 1]) == Some(v[i])
    {
      PlaceStep(run, es, v, |es|, i);
    }
  }

  lemma PlacesLength(run: seq<Moment>, es: seq<Entry>, v: seq<nat>, n: nat)
    requires |run| == |es| + 1 && n <= |es| && PlacesOf(run, es, v, n)
    ensures |v| == n && forall i :: 0 <= i < n ==> es[i] == Entry(es[i].key, es[i].val)
  {
    hide NextPos, KeyAt, ValAt;
  }

  lemma GivenOnce(run: seq<Moment>, es: seq<Entry>, v: seq<nat>, i: nat, j: nat)
    requires Calls(run, es) && PlacesOf(run, es, v, |es|) && Visits(run, v) && i < j < |es|
    ensures es[i].key != es[j].key
  {
    hide NextPos, ValueIn, Follows, ValAt;
    VisitsIncrease(run, v, i, j);
    VisitsBound(run, v, j);
    assert SameKeys(run[i], run[j]) && SameKeys(run[0], run[i]) && Whole(run[j]);
    if es[i].key == es[j].key { KeysNumbered(run[j].a, run[j].node, v[i], v[j]); }
  }

  lemma GivenValue(run: seq<Moment>, es: seq<Entry>, v: seq<nat>, i: nat)
    requires Calls(run, es) && PlacesOf(run, es, v, |es|) && i < |es|
    ensures es[i].val == ValueIn(run[i].a, run[i].node, es[i].key) != Nil
  {
    hide ValueIn, Follows, SameKeys, NextPos;
    assert Whole(run[i]) && PlaceOk(run[i], es[i], Before(v, i), v[i]);
    HeldValue(run[i], v[i]);
  }

  lemma HeldValue(m: Moment, p: nat)
    requires Whole(m) && p < |m.a| + |m.node| && ValAt(m.a, m.node, p) != Nil
    ensures ValAt(m.a, m.node, p) == ValueIn(m.a, m.node, KeyAt(m.a, m.node, p))
  {
    if p >= |m.a| { ValueAt(m.a, m.node, p - |m.a|); }
  }

  lemma KeyGiven(run: seq<Moment>, es: seq<Entry>, v: seq<nat>, k: Key)
    requires Calls(run, es) && PlacesOf(run, es, v, |es|) && Visits(run, v) && Ended(run, v) && Stays(run, k)
    ensures Given(es, k)
  {
    hide NextPos, ValueIn, Whole, Follows, KeyAt, ValAt;
    assert Whole(run[0]);
    var p := PlaceOf(run[0], k);
    forall i | 0 <= i < |run|
      ensures p < |run[i].a| + |run[i].node| && ValAt(run[i].a, run[i].node, p) != Nil
    {
      assert SameKeys(run[0], run[i]) && Whole(run[i]);
      SamePlace(run[0], run[i], k, p);
    }
    PlacesComplete(run, v, p);
    var i :| 0 <= i < |v| && v[i] == p;
    assert SameKeys(run[0], run[i]);
  }
}
