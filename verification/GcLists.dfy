/** Duplicate-free lists of objects: the intrusive linked lists of the collector. */
module GcLists {
  import opened GcState

  ghost predicate NoDup(s: seq<Id>) {
    forall i, j :: 0 <= i < j < |s| ==> s[i] != s[j]
  }

  function Elems(s: seq<Id>): set<Id> { set x | x in s }

  lemma ConcatNoDup(s: seq<Id>, t: seq<Id>)
    requires NoDup(s) && NoDup(t)
    requires forall x :: x in s ==> x !in t
    ensures NoDup(s + t)
  {
    forall i, j | 0 <= i < j < |s + t|
      ensures (s + t)[i] != (s + t)[j]
    {
      if i < |s| <= j {
        assert (s + t)[i] in s && (s + t)[j] in t;
      } else if |s| <= i {
        assert t[i - |s|] != t[j - |s|];
      }
    }
  }

  lemma InsertNoDup(o: Id, s: seq<Id>, t: seq<Id>)
    requires NoDup([o] + (s + t))
    ensures NoDup(s + ([o] + t))
  {
    var u := [o] + (s + t);
    var w := s + ([o] + t);
    assert forall i :: 0 <= i < |w| ==> w[i] == (if i < |s| then u[i + 1] else if i == |s| then u[0] else u[i]);
    forall i, j | 0 <= i < j < |w|
      ensures w[i] != w[j]
    {
      var k := if i < |s| then i + 1 else if i == |s| then 0 else i;
      var l := if j < |s| then j + 1 else if j == |s| then 0 else j;
      assert u[k] != u[l] by {
        if k < l { assert u[k] != u[l]; } else { assert u[l] != u[k]; }
      }
    }
  }

  lemma SwapNoDup(s: seq<Id>, t: seq<Id>)
    requires NoDup(s + t)
    ensures NoDup(t + s)
  {
    var u, w := s + t, t + s;
    forall i, j | 0 <= i < j < |w|
      ensures w[i] != w[j]
    {
      var k := if i < |t| then i + |s| else i - |t|;
      var l := if j < |t| then j + |s| else j - |t|;
      assert w[i] == u[k] && w[j] == u[l] && (k < l || l < k);
    }
  }

  lemma TailNoDup(l: seq<Id>)
    requires NoDup(l) && l != []
    ensures NoDup(l[1..]) && l[0] !in l[1..]
  {
  }

  // The position of an element

  function IndexOf(s: seq<Id>, x: Id): (i: nat)
    requires x in s
    ensures i < |s| && s[i] == x
  {
    if s[0] == x then 0 else 1 + IndexOf(s[1..], x)
  }

  /** The elements behind `x`. */
  function Behind(l: seq<Id>, x: Id): seq<Id>
    requires x in l
  {
    l[IndexOf(l, x) + 1..]
  }

  lemma {:induction false} IndexOfPrefix(s: seq<Id>, t: seq<Id>, x: Id)
    requires x in s
    ensures x in s + t && IndexOf(s + t, x) == IndexOf(s, x)
  {
    if s[0] == x {
      assert (s + t)[0] == x;
    } else {
      IndexOfPrefix(s[1..], t, x);
      assert (s + t)[1..] == s[1..] + t;
      assert x in s + t;
    }
  }

  /** Splitting a list just behind `x`, and continuing it with another tail. */
  lemma SplitBehind(l: seq<Id>, x: Id, t: seq<Id>)
    requires x in l && NoDup(l)
    ensures var k := IndexOf(l, x) + 1;
            && l == l[..k] + Behind(l, x)
            && x in l[..k] + t && Behind(l[..k] + t, x) == t
            && NoDup(l[..k]) && NoDup(Behind(l, x))
            && (forall u :: u in l[..k] ==> u !in Behind(l, x))
  {
    var k := IndexOf(l, x) + 1;
    var s := l[..k];
    assert s[k - 1] == x;
    assert l == s + Behind(l, x);
    IndexOfPrefix(s, Behind(l, x), x);
    IndexOfPrefix(s, t, x);
    assert forall i, j :: 0 <= i < k && 0 <= j < |Behind(l, x)| ==> l[i] != Behind(l, x)[j];
  }

  lemma BehindElems(l: seq<Id>, m: Id)
    requires m in l
    ensures forall y :: y in Behind(l, m) ==> y in l
  {
  }

  // Insertion

  function Insert(l: seq<Id>, k: nat, o: Id): seq<Id>
    requires k <= |l|
  {
    l[..k] + [o] + l[k..]
  }

  lemma InsertElems(l: seq<Id>, k: nat, o: Id)
    requires k <= |l|
    ensures forall x :: x in Insert(l, k, o) <==> x in l || x == o
    ensures NoDup(l) && o !in l ==> NoDup(Insert(l, k, o))
  {
    assert l == l[..k] + l[k..];
    if NoDup(l) && o !in l {
      ConcatNoDup([o], l);
      assert [o] + (l[..k] + l[k..]) == [o] + l;
      InsertNoDup(o, l[..k], l[k..]);
      assert Insert(l, k, o) == l[..k] + ([o] + l[k..]);
    }
  }

  /** Inserting at the head, or just behind `x`. */
  lemma InsertBehind(l: seq<Id>, k: nat, o: Id, x: Id)
    requires x in l && o != x && NoDup(l) && (k == 0 || k == IndexOf(l, x) + 1)
    ensures x in Insert(l, k, o)
    ensures Behind(Insert(l, k, o), x) == if k == 0 then Behind(l, x) else [o] + Behind(l, x)
  {
    if k == 0 { InsertFirst(l, o, x); } else { InsertAfter(l, o, x); }
  }

  lemma InsertFirst(l: seq<Id>, o: Id, x: Id)
    requires x in l && o != x
    ensures x in Insert(l, 0, o) && Behind(Insert(l, 0, o), x) == Behind(l, x)
  {
    var s := Insert(l, 0, o);
    assert s == [o] + l && s[1..] == l;
  }

  lemma InsertAfter(l: seq<Id>, o: Id, x: Id)
    requires x in l && o != x && NoDup(l)
    ensures var k := IndexOf(l, x) + 1;
            k <= |l| && x in Insert(l, k, o) && Behind(Insert(l, k, o), x) == [o] + Behind(l, x)
  {
    hide NoDup, IndexOf;
    var k := IndexOf(l, x) + 1;
    SplitBehind(l, x, [o] + Behind(l, x));
    assert Insert(l, k, o) == l[..k] + ([o] + Behind(l, x));
  }

  // Removal

  function Without(l: seq<Id>, x: Id): (r: seq<Id>)
    ensures forall y :: y in r <==> y in l && y != x
  {
    if l == [] then [] else (if l[0] == x then [] else [l[0]]) + Without(l[1..], x)
  }

  lemma {:induction false} WithoutNoDup(l: seq<Id>, x: Id)
    requires NoDup(l)
    ensures NoDup(Without(l, x))
  {
    if l != [] {
      WithoutNoDup(l[1..], x);
      assert l[0] !in l[1..];
      ConcatNoDup(if l[0] == x then [] else [l[0]], Without(l[1..], x));
    }
  }

  lemma {:induction false} WithoutPrefix(l: seq<Id>, x: Id, n: nat)
    requires n <= |l| && forall i :: 0 <= i < n ==> l[i] != x
    ensures n <= |Without(l, x)| && forall i :: 0 <= i < n ==> Without(l, x)[i] == l[i]
  {
    if n > 0 {
      WithoutPrefix(l[1..], x, n - 1);
    }
  }

  lemma BehindCons(y: Id, l: seq<Id>, x: Id)
    requires x in l && x != y
    ensures x in [y] + l && Behind([y] + l, x) == Behind(l, x)
  {
    var s := [y] + l;
    assert s[1..] == l;
    assert s[IndexOf(l, x) + 2..] == l[IndexOf(l, x) + 1..];
  }

  lemma {:induction false} WithoutBehind(l: seq<Id>, x: Id, m: Id)
    requires m in l && m != x
    ensures m in Without(l, x)
    ensures forall y :: y in Behind(Without(l, x), m) ==> y in Behind(l, m)
  {
    var v := Without(l[1..], x);
    assert l == [l[0]] + l[1..];
    if l[0] == m {
      assert Without(l, x) == [m] + v;
      assert Behind([m] + v, m) == v;
      assert Behind(l, m) == l[1..];
    } else {
      WithoutBehind(l[1..], x, m);
      BehindCons(l[0], l[1..], m);
      if l[0] == x {
        assert Without(l, x) == v;
      } else {
        assert Without(l, x) == [l[0]] + v;
        BehindCons(l[0], v, m);
      }
    }
  }
}
