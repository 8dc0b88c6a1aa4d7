/** The hash part of a table: a chained scatter table with Brent's variation (`ltable.c`). */
module TableNodes {
  import opened Common

  /** A number that is an integer is told apart from other keys, and so is the one that differs from itself. */
  datatype Key = NilKey | NanKey | IntKey(n: int) | OtherKey(id: nat)

  datatype Val = Nil | Is(x: int)

  datatype Node = Node(key: Key, val: Val, next: Option<nat>)

  /** The main position by key and number of nodes: any function that stays below that number. */
  type Hash = (Key, nat) -> nat

  function Main(h: Hash, k: Key, size: nat): (m: nat)
    requires size > 0
    ensures m < size
  {
    if h(k, size) < size then h(k, size) else 0
  }

  // Chains. Each node is in one chain (`cid`), ordered by decreasing `rank`.

  ghost predicate NoneBetween(cid: seq<int>, rank: seq<real>, i: nat, j: nat)
    requires i < |cid| == |rank| && j < |cid|
  {
    forall k :: 0 <= k < |cid| && cid[k] == cid[i] ==> !(rank[j] < rank[k] < rank[i])
  }

  ghost predicate Last(cid: seq<int>, rank: seq<real>, i: nat)
    requires i < |cid| == |rank|
  {
    forall k :: 0 <= k < |cid| && cid[k] == cid[i] ==> rank[k] >= rank[i]
  }

  /** `next` leads to the node that follows in the chain. */
  ghost predicate LinkOk(node: seq<Node>, cid: seq<int>, rank: seq<real>, i: nat)
    requires i < |node| == |cid| == |rank|
  {
    match node[i].next
    case Some(j) => j < |node| && cid[j] == cid[i] && rank[j] < rank[i] && NoneBetween(cid, rank, i, j)
    case None => Last(cid, rank, i)
  }

  ghost predicate Apart(cid: seq<int>, rank: seq<real>)
    requires |cid| == |rank|
  {
    forall i, k :: 0 <= i < |cid| && 0 <= k < |cid| && i != k && cid[i] == cid[k] ==> rank[i] != rank[k]
  }

  /** A key is in the chain that begins at its main position, which is held by a key that belongs there. */
  predicate KeyOk(h: Hash, node: seq<Node>, cid: seq<int>, rank: seq<real>, i: nat)
    requires i < |node| == |cid| == |rank|
  {
    node[i].key != NilKey ==>
      var m := Main(h, node[i].key, |node|);
      && node[i].key != NanKey && cid[i] == cid[m] && rank[i] <= rank[m]
      && (m != i ==> node[m].key != NilKey && Main(h, node[m].key, |node|) == m)
  }

  /** A node without a key is in no chain but its own. */
  ghost predicate FreeOk(node: seq<Node>, cid: seq<int>, i: nat)
    requires i < |node| == |cid|
  {
    node[i].key == NilKey ==> node[i].val == Nil && node[i].next == None
                              && forall k :: 0 <= k < |cid| && cid[k] == cid[i] ==> k == i
  }

  ghost predicate UniqueKeys(node: seq<Node>) {
    forall i, k :: 0 <= i < |node| && 0 <= k < |node| && i != k && node[i].key == node[k].key ==> node[i].key == NilKey
  }

  ghost predicate Inv(h: Hash, node: seq<Node>, cid: seq<int>, rank: seq<real>) {
    && |node| == |cid| == |rank| > 0 && Apart(cid, rank) && UniqueKeys(node)
    && (forall i :: 0 <= i < |node| ==> LinkOk(node, cid, rank, i))
    && (forall i :: 0 <= i < |node| ==> KeyOk(h, node, cid, rank, i))
    && (forall i :: 0 <= i < |node| ==> FreeOk(node, cid, i))
  }

  predicate Has(node: seq<Node>, k: Key) { exists i :: 0 <= i < |node| && node[i].key == k }

  // Adding a key

  /** The main position is free, or its key has no value: the new key goes there. */
  lemma FillKeepsInv(h: Hash, node: seq<Node>, cid: seq<int>, rank: seq<real>, mp: nat, k: Key)
    requires Inv(h, node, cid, rank) && k != NilKey && k != NanKey && !Has(node, k) && mp == Main(h, k, |node|)
             && node[mp].val == Nil
    ensures Inv(h, node[mp := node[mp].(key := k)], cid, rank)
  {
    var d := node[mp := node[mp].(key := k)];
    forall i | 0 <= i < |d|
      ensures LinkOk(d, cid, rank, i) && KeyOk(h, d, cid, rank, i) && FreeOk(d, cid, i)
    {
      assert LinkOk(node, cid, rank, i) && KeyOk(h, node, cid, rank, i) && FreeOk(node, cid, i);
    }
  }

  /** A rank just below that of `i`. */
  function Below(node: seq<Node>, rank: seq<real>, i: nat): real
    requires i < |node| == |rank|
  {
    if node[i].next.Some? && node[i].next.value < |rank| then (rank[i] + rank[node[i].next.value]) / 2.0
    else rank[i] - 1.0
  }

  /** The colliding key is in its main position: the new key goes to the free node, behind it in the chain. */
  lemma SpliceKeepsInv(h: Hash, node: seq<Node>, cid: seq<int>, rank: seq<real>, mp: nat, n: nat, k: Key)
    requires Inv(h, node, cid, rank) && k != NilKey && k != NanKey && !Has(node, k) && mp == Main(h, k, |node|)
    requires node[mp].key != NilKey && Main(h, node[mp].key, |node|) == mp && n < |node| && node[n].key == NilKey
    ensures Inv(h, node[n := Node(k, Nil, node[mp].next)][mp := node[mp].(next := Some(n))],
                cid[n := cid[mp]], rank[n := Below(node, rank, mp)])
  {
    var d := node[n := Node(k, Nil, node[mp].next)][mp := node[mp].(next := Some(n))];
    var c, r := cid[n := cid[mp]], rank[n := Below(node, rank, mp)];
    SpliceApart(h, node, cid, rank, mp, n);
    forall i | 0 <= i < |d|
      ensures LinkOk(d, c, r, i) && KeyOk(h, d, c, r, i) && FreeOk(d, c, i)
    {
      SpliceLink(h, node, cid, rank, mp, n, k, i);
      SpliceKey(h, node, cid, rank, mp, n, k, i);
    }
  }

  lemma SpliceLink(h: Hash, node: seq<Node>, cid: seq<int>, rank: seq<real>, mp: nat, n: nat, k: Key, i: nat)
    requires Inv(h, node, cid, rank) && i < |node| && mp < |node| && n < |node| && n != mp && node[n].key == NilKey
    ensures LinkOk(node[n := Node(k, Nil, node[mp].next)][mp := node[mp].(next := Some(n))], cid[n := cid[mp]],
                   rank[n := Below(node, rank, mp)], i)
  {
    assert LinkOk(node, cid, rank, mp) && FreeOk(node, cid, n) && LinkOk(node, cid, rank, i);
  }

  lemma SpliceKey(h: Hash, node: seq<Node>, cid: seq<int>, rank: seq<real>, mp: nat, n: nat, k: Key, i: nat)
    requires Inv(h, node, cid, rank) && k != NilKey && k != NanKey && mp == Main(h, k, |node|) && i < |node|
    requires node[mp].key != NilKey && Main(h, node[mp].key, |node|) == mp && n < |node| && node[n].key == NilKey
    ensures var d := node[n := Node(k, Nil, node[mp].next)][mp := node[mp].(next := Some(n))];
            var c, r := cid[n := cid[mp]], rank[n := Below(node, rank, mp)];
            KeyOk(h, d, c, r, i) && FreeOk(d, c, i)
  {
    assert LinkOk(node, cid, rank, mp) && FreeOk(node, cid, n) && KeyOk(h, node, cid, rank, i) && FreeOk(node, cid, i);
  }

  lemma SpliceApart(h: Hash, node: seq<Node>, cid: seq<int>, rank: seq<real>, mp: nat, n: nat)
    requires Inv(h, node, cid, rank) && mp < |node| && n < |node| && n != mp && node[n].key == NilKey
    ensures Apart(cid[n := cid[mp]], rank[n := Below(node, rank, mp)])
  {
    assert LinkOk(node, cid, rank, mp) && FreeOk(node, cid, n);
  }

  /** A number that no chain has. */
  function Unused(cid: seq<int>): (r: int)
    ensures forall i :: 0 <= i < |cid| ==> cid[i] < r
  {
    if cid == [] then 0
    else
      var r := Unused(cid[1..]);
      assert cid == [cid[0]] + cid[1..];
      if cid[0] >= r then cid[0] + 1 else r
  }

  /**
    The colliding key is elsewhere than its main position: it moves to the free node, and the new key takes its place.
   */
  lemma MoveKeepsInv(h: Hash, node: seq<Node>, cid: seq<int>, rank: seq<real>, mp: nat, n: nat, prev: nat, k: Key)
    requires Inv(h, node, cid, rank) && k != NilKey && k != NanKey && !Has(node, k) && mp == Main(h, k, |node|)
    requires node[mp].key != NilKey && Main(h, node[mp].key, |node|) != mp && n < |node| && node[n].key == NilKey
    requires prev < |node| && node[prev].next == Some(mp)
    ensures Inv(h, node[prev := node[prev].(next := Some(n))][n := node[mp]][mp := Node(k, Nil, None)],
                cid[n := cid[mp]][mp := Unused(cid)], rank[n := rank[mp]])
  {
    var d := node[prev := node[prev].(next := Some(n))][n := node[mp]][mp := Node(k, Nil, None)];
    var c, r := cid[n := cid[mp]][mp := Unused(cid)], rank[n := rank[mp]];
    assert LinkOk(node, cid, rank, prev) && LinkOk(node, cid, rank, mp) && FreeOk(node, cid, n)
           && KeyOk(h, node, cid, rank, mp);
    assert prev != mp && prev != n && n != mp;
    forall i | 0 <= i < |d|
      ensures LinkOk(d, c, r, i) && KeyOk(h, d, c, r, i) && FreeOk(d, c, i)
    {
      assert LinkOk(node, cid, rank, i) && KeyOk(h, node, cid, rank, i) && FreeOk(node, cid, i);
      MoveAt(h, node, cid, rank, mp, n, prev, k, i);
    }
  }

  lemma MoveAt(h: Hash, node: seq<Node>, cid: seq<int>, rank: seq<real>, mp: nat, n: nat, prev: nat, k: Key, i: nat)
    requires Inv(h, node, cid, rank) && k != NilKey && k != NanKey && mp == Main(h, k, |node|) && i < |node|
    requires node[mp].key != NilKey && Main(h, node[mp].key, |node|) != mp && n < |node| && node[n].key == NilKey
    requires prev < |node| && node[prev].next == Some(mp) && prev != mp && prev != n && n != mp
    ensures var d := node[prev := node[prev].(next := Some(n))][n := node[mp]][mp := Node(k, Nil, None)];
            var c, r := cid[n := cid[mp]][mp := Unused(cid)], rank[n := rank[mp]];
            LinkOk(d, c, r, i) && KeyOk(h, d, c, r, i) && FreeOk(d, c, i)
  {
    MoveLink(h, node, cid, rank, mp, n, prev, k, i);
    assert LinkOk(node, cid, rank, mp) && FreeOk(node, cid, n) && KeyOk(h, node, cid, rank, mp);
    assert KeyOk(h, node, cid, rank, i) && FreeOk(node, cid, i);
  }

  lemma MoveLink(h: Hash, node: seq<Node>, cid: seq<int>, rank: seq<real>, mp: nat, n: nat, prev: nat, k: Key, i: nat)
    requires Inv(h, node, cid, rank) && i < |node| && mp < |node| && node[mp].key != NilKey && n < |node|
             && node[n].key == NilKey
    requires prev < |node| && node[prev].next == Some(mp) && prev != mp && prev != n && n != mp
    ensures var d := node[prev := node[prev].(next := Some(n))][n := node[mp]][mp := Node(k, Nil, None)];
            var c, r := cid[n := cid[mp]][mp := Unused(cid)], rank[n := rank[mp]];
            LinkOk(d, c, r, i)
  {
    var d := node[prev := node[prev].(next := Some(n))][n := node[mp]][mp := Node(k, Nil, None)];
    var c, r := cid[n := cid[mp]][mp := Unused(cid)], rank[n := rank[mp]];
    assert LinkOk(node, cid, rank, prev) && LinkOk(node, cid, rank, mp) && FreeOk(node, cid, n)
           && LinkOk(node, cid, rank, i);
    if i == mp {
      assert Last(c, r, mp);
    } else {
      var o := if i == n then mp else i;
      if d[i].next.Some? {
        var j := d[i].next.value;
        if i != prev { SamePrevious(h, node, cid, rank, prev, o, mp); }
        MoveBetween(cid, rank, mp, n, o, if i == prev then mp else j);
      } else {
        MoveLast(cid, rank, mp, n, o);
      }
    }
  }

  lemma SamePrevious(h: Hash, node: seq<Node>, cid: seq<int>, rank: seq<real>, prev: nat, i: nat, mp: nat)
    requires Inv(h, node, cid, rank) && i < |node| && prev < |node| && node[prev].next == Some(mp) && i != prev
    ensures node[i].next != Some(mp)
  {
    assert LinkOk(node, cid, rank, prev) && LinkOk(node, cid, rank, i);
  }

  lemma MoveBetween(cid: seq<int>, rank: seq<real>, mp: nat, n: nat, i: nat, j: nat)
    requires mp < |cid| == |rank| && n < |cid| && n != mp && i < |cid| && j < |cid| && i != n && j != n
             && NoneBetween(cid, rank, i, j)
    requires forall k :: 0 <= k < |cid| && cid[k] == cid[n] ==> k == n
    ensures var c, r := cid[n := cid[mp]][mp := Unused(cid)], rank[n := rank[mp]];
            NoneBetween(c, r, if i == mp then n else i, if j == mp then n else j)
  {
  }

  lemma MoveLast(cid: seq<int>, rank: seq<real>, mp: nat, n: nat, i: nat)
    requires mp < |cid| == |rank| && n < |cid| && n != mp && i < |cid| && i != n && Last(cid, rank, i)
    requires forall k :: 0 <= k < |cid| && cid[k] == cid[n] ==> k == n
    ensures var c, r := cid[n := cid[mp]][mp := Unused(cid)], rank[n := rank[mp]];
            Last(c, r, if i == mp then n else i)
  {
  }

  /** At most one node leads to another. */
  lemma OnePrevious(h: Hash, node: seq<Node>, cid: seq<int>, rank: seq<real>, j: nat)
    requires Inv(h, node, cid, rank) && j < |node|
    ensures forall i, k :: 0 <= i < |node| && 0 <= k < |node| && node[i].next == Some(j) && node[k].next == Some(j) ==>
                             i == k
  {
    forall i, k | 0 <= i < |node| && 0 <= k < |node| && node[i].next == Some(j) && node[k].next == Some(j)
      ensures i == k
    {
      assert LinkOk(node, cid, rank, i) && LinkOk(node, cid, rank, k);
    }
  }

  // Walking along a chain

  /** The node reached after some steps. */
  function Walk(node: seq<Node>, i: nat, steps: nat): Option<nat>
    requires i < |node|
    decreases steps
  {
    if steps == 0 then Some(i)
    else if node[i].next.Some? && node[i].next.value < |node| then Walk(node, node[i].next.value, steps - 1)
    else None
  }

  /** The nodes that follow in the chain. */
  ghost function After(cid: seq<int>, rank: seq<real>, i: nat): set<nat>
    requires i < |cid| == |rank|
  {
    set k: nat | k < |cid| && cid[k] == cid[i] && rank[k] < rank[i]
  }

  lemma StepAfter(node: seq<Node>, cid: seq<int>, rank: seq<real>, i: nat)
    requires i < |node| == |cid| == |rank| && LinkOk(node, cid, rank, i) && node[i].next.Some?
    ensures node[i].next.value < |node| && After(cid, rank, node[i].next.value) < After(cid, rank, i)
  {
    var j := node[i].next.value;
    assert j in After(cid, rank, i) && j !in After(cid, rank, j);
  }

  /** No walk along a chain comes back to where it was. */
  lemma {:induction false} ChainsAcyclic(h: Hash, node: seq<Node>, cid: seq<int>, rank: seq<real>, i: nat, steps: nat)
    requires Inv(h, node, cid, rank) && i < |node| && steps > 0
    ensures var j := Walk(node, i, steps); j.Some? ==> j.value < |node| && j.value != i && rank[j.value] < rank[i]
    decreases steps
  {
    assert LinkOk(node, cid, rank, i);
    if node[i].next.Some? && steps > 1 { ChainsAcyclic(h, node, cid, rank, node[i].next.value, steps - 1); }
  }

  /** From a node of a chain every later one is reached. */
  lemma {:induction false} LaterReached(h: Hash, node: seq<Node>, cid: seq<int>, rank: seq<real>, m: nat, i: nat)
    returns (steps: nat)
    requires Inv(h, node, cid, rank) && m < |node| && i < |node| && cid[i] == cid[m] && rank[i] <= rank[m]
    ensures Walk(node, m, steps) == Some(i)
    decreases After(cid, rank, m)
  {
    if i == m { return 0; }
    assert LinkOk(node, cid, rank, m);
    StepAfter(node, cid, rank, m);
    var rest := LaterReached(h, node, cid, rank, node[m].next.value, i);
    steps := rest + 1;
  }

  /** Every key is reached from its main position. */
  lemma KeysReachable(h: Hash, node: seq<Node>, cid: seq<int>, rank: seq<real>, i: nat)
    requires Inv(h, node, cid, rank) && i < |node| && node[i].key != NilKey
    ensures exists steps :: Walk(node, Main(h, node[i].key, |node|), steps) == Some(i)
  {
    assert KeyOk(h, node, cid, rank, i);
    var steps := LaterReached(h, node, cid, rank, Main(h, node[i].key, |node|), i);
  }

  /** A key that is out of its main position was displaced by one that belongs there. */
  lemma DisplacedByOwner(h: Hash, node: seq<Node>, cid: seq<int>, rank: seq<real>, i: nat)
    requires Inv(h, node, cid, rank) && i < |node| && node[i].key != NilKey && Main(h, node[i].key, |node|) != i
    ensures var m := Main(h, node[i].key, |node|); node[m].key != NilKey && Main(h, node[m].key, |node|) == m
  {
    assert KeyOk(h, node, cid, rank, i);
  }
}
