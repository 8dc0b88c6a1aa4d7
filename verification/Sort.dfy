/** `auxsort`: quicksort on a table, with the smaller part sorted first (`ltablib.c`). */
module Sort {

  /** A strict weak order, which the comparison function is asked to be. */
  ghost predicate StrictWeak<T(!new)>(lt: (T, T) -> bool) {
    && (forall x :: !lt(x, x))
    && (forall x, y, z :: lt(x, y) && lt(y, z) ==> lt(x, z))
    && (forall x, y, z :: lt(x, y) ==> lt(x, z) || lt(z, y))
  }

  predicate Le<T>(lt: (T, T) -> bool, x: T, y: T) { !lt(y, x) }

  lemma LeTransitive<T(!new)>(lt: (T, T) -> bool, x: T, y: T, z: T)
    requires StrictWeak(lt) && Le(lt, x, y) && Le(lt, y, z)
    ensures Le(lt, x, z)
  {
  }

  ghost predicate Sorted<T>(s: seq<T>, lo: int, hi: int, lt: (T, T) -> bool)
    requires 0 <= lo && hi < |s|
  {
    forall i, j :: lo <= i < j <= hi ==> Le(lt, s[i], s[j])
  }

  /** The same elements, in another order between `lo` and `hi`. */
  ghost predicate Permutes<T>(s: seq<T>, t: seq<T>, lo: int, hi: int) {
    && |s| == |t| && multiset(s) == multiset(t)
    && forall i :: 0 <= i < |s| && !(lo <= i <= hi) ==> t[i] == s[i]
  }

  lemma PermutesTwice<T>(s: seq<T>, t: seq<T>, u: seq<T>, lo: int, hi: int, lo': int, hi': int)
    requires Permutes(s, t, lo, hi) && Permutes(t, u, lo', hi') && lo <= lo' && hi' <= hi
    ensures Permutes(s, u, lo, hi)
  {
  }

  lemma MiddleSame<T>(p: seq<T>, m: seq<T>, n: seq<T>, q: seq<T>, x: T)
    requires multiset(p + m + q) == multiset(p + n + q)
    ensures multiset(m)[x] == multiset(n)[x]
  {
    assert multiset(p + m + q)[x] == multiset(p)[x] + multiset(m)[x] + multiset(q)[x];
    assert multiset(p + n + q)[x] == multiset(p)[x] + multiset(n)[x] + multiset(q)[x];
  }

  /** What is in the part was in it before. */
  lemma WasThere<T>(s: seq<T>, t: seq<T>, lo: int, hi: int, k: int) returns (i: int)
    requires Permutes(s, t, lo, hi) && 0 <= lo <= k <= hi < |s|
    ensures lo <= i <= hi && s[i] == t[k]
  {
    var m, n := s[lo..hi + 1], t[lo..hi + 1];
    assert s[..lo] == t[..lo] && s[hi + 1..] == t[hi + 1..];
    assert s == s[..lo] + m + s[hi + 1..] && t == s[..lo] + n + s[hi + 1..];
    MiddleSame(s[..lo], m, n, s[hi + 1..], t[k]);
    assert n[k - lo] == t[k] && t[k] in multiset(n);
    assert t[k] in multiset(m);
    var j :| 0 <= j < |m| && m[j] == t[k];
    i := lo + j;
  }

  method Swap<T>(a: array<T>, i: int, j: int, ghost lo: int, ghost hi: int)
    requires 0 <= lo <= i <= hi < a.Length && lo <= j <= hi
    modifies a
    ensures a[..] == old(a[..])[i := old(a[j])][j := old(a[i])] && Permutes(old(a[..]), a[..], lo, hi)
  {
    a[i], a[j] := a[j], a[i];
  }

  /** The pivot is in its place: what is before it is not greater, what is behind it not less. */
  ghost predicate Split<T>(s: seq<T>, l: int, p: int, u: int, lt: (T, T) -> bool)
    requires 0 <= l <= p <= u < |s|
  {
    (forall k :: l <= k < p ==> Le(lt, s[k], s[p])) && (forall k :: p < k <= u ==> Le(lt, s[p], s[k]))
  }

  /** The first and the last element are put in order. */
  method FirstTwo<T(!new)>(a: array<T>, l: int, u: int, lt: (T, T) -> bool)
    requires StrictWeak(lt) && 1 <= l < u < a.Length
    modifies a
    ensures Permutes(old(a[..]), a[..], l, u) && !lt(a[u], a[l])
  {
    hide StrictWeak, Permutes;
    SamePermutes(a[..], l, u);
    Asymmetric(lt, a[u], a[l]);
    if lt(a[u], a[l]) { Swap(a, l, u, l, u); }
  }

  /** The first, the middle and the last element are put in order; with no more elements the part is sorted. */
  method FirstThree<T(!new)>(a: array<T>, l: int, u: int, lt: (T, T) -> bool) returns (i: int)
    requires StrictWeak(lt) && 1 <= l < u < a.Length
    modifies a
    ensures Permutes(old(a[..]), a[..], l, u) && i == (l + u) / 2
    ensures Le(lt, a[l], a[i]) && Le(lt, a[i], a[u]) && Le(lt, a[l], a[u])
  {
    hide StrictWeak, Permutes, Le;
    ghost var s := a[..];
    FirstTwo(a, l, u, lt);
    i := (l + u) / 2;
    ghost var t := a[..];
    Irreflexive(lt, t[l]);
    Asymmetric(lt, t[u], t[l]);
    if u - l == 1 { return; }
    ThreeInOrder(lt, t[l], t[i], t[u]);
    if lt(a[i], a[l]) {
      Swap(a, i, l, l, u);
    } else if lt(a[u], a[i]) {
      Swap(a, i, u, l, u);
    } else {
      SamePermutes(t, l, u);
    }
    PermutesTwice(s, t, a[..], l, u, l, u);
  }

  lemma Asymmetric<T(!new)>(lt: (T, T) -> bool, x: T, y: T)
    requires StrictWeak(lt)
    ensures if lt(x, y) then !lt(y, x) && Le(lt, x, y) else Le(lt, y, x)
  {
  }

  lemma ThreeInOrder<T(!new)>(lt: (T, T) -> bool, x: T, y: T, z: T)
    requires StrictWeak(lt) && !lt(z, x)
    ensures
      if lt(y, x) then Le(lt, y, x) && Le(lt, x, z) && Le(lt, y, z)
      else if lt(z, y) then Le(lt, x, z) && Le(lt, z, y) && Le(lt, x, y)
      else Le(lt, x, y) && Le(lt, y, z) && Le(lt, x, z)
  {
  }

  lemma Irreflexive<T(!new)>(lt: (T, T) -> bool, x: T)
    requires StrictWeak(lt)
    ensures !lt(x, x) && Le(lt, x, x)
  {
  }

  lemma SamePermutes<T>(s: seq<T>, l: int, u: int)
    ensures Permutes(s, s, l, u)
  {
  }

  /** What the scans of a partition know: up to `i` nothing is greater than the pivot, from `j` on nothing is less. */
  ghost predicate Parted<T>(s: seq<T>, l: int, i: int, j: int, u: int, x: T, lt: (T, T) -> bool)
    requires 0 <= l && u < |s|
  {
    && (forall k :: l <= k <= i && k <= u ==> Le(lt, s[k], x))
    && (forall k :: j <= k <= u && l <= k ==> Le(lt, x, s[k]))
  }

  lemma PartedSwap<T>(s: seq<T>, t: seq<T>, l: int, i: int, j: int, u: int, x: T, lt: (T, T) -> bool)
    requires 1 <= l < i <= j < u < |s| && t == s[i := s[j]][j := s[i]]
    requires Parted(s, l, i - 1, j + 1, u, x, lt) && !lt(s[i], x) && !lt(x, s[j])
    ensures Parted(t, l, i, j, u, x, lt)
  {
  }

  /** The pivot, the element before the last, changes places with the one where the scans met. */
  lemma PartedSplit<T>(s: seq<T>, t: seq<T>, l: int, i: int, j: int, u: int, x: T, lt: (T, T) -> bool)
    requires 1 <= l < i < u < |s| && l <= j < i && s[u - 1] == x && t == s[u - 1 := s[i]][i := x]
    requires Parted(s, l, i - 1, j + 1, u, x, lt) && !lt(s[i], x)
    ensures Split(t, l, i, u, lt)
  {
  }

  /** The first scan: up to an element that is not less than the pivot, which is there before the part ends. */
  method ScanUp<T(!new)>(a: array<T>, first: int, u: int, x: T, lt: (T, T) -> bool, ghost stop: int) returns (i: int)
    requires 0 <= first < stop <= u < a.Length && !lt(a[stop], x)
    ensures first < i <= stop && !lt(a[i], x) && forall k :: first < k < i ==> lt(a[k], x)
  {
    i := first + 1;
    while lt(a[i], x)
      invariant first < i <= stop && forall k :: first < k < i ==> lt(a[k], x)
      decreases stop - i
    {
      if i > u { assert false; }
      i := i + 1;
    }
  }

  /** The second scan, down. */
  method ScanDown<T(!new)>(a: array<T>, first: int, l: int, x: T, lt: (T, T) -> bool, ghost stop: int) returns (j: int)
    requires 0 <= l <= stop < first <= a.Length && !lt(x, a[stop])
    ensures stop <= j < first && !lt(x, a[j]) && forall k :: j < k < first ==> lt(x, a[k])
  {
    j := first - 1;
    while lt(x, a[j])
      invariant stop <= j < first && forall k :: j < k < first ==> lt(x, a[k])
      decreases j - stop
    {
      if j < l { assert false; }
      j := j - 1;
    }
  }

  lemma PartedScans<T(!new)>(s: seq<T>, l: int, i0: int, i: int, j: int, j0: int, u: int, x: T, lt: (T, T) -> bool)
    requires StrictWeak(lt) && 0 <= l <= i0 < i <= u + 1 && l - 1 <= j < j0 <= u < |s| && Parted(s, l, i0, j0, u, x, lt)
    requires (forall k :: i0 < k < i ==> lt(s[k], x)) && (forall k :: j < k < j0 ==> lt(x, s[k]))
    ensures Parted(s, l, i - 1, j + 1, u, x, lt)
  {
  }

  lemma PartedEnds<T>(s: seq<T>, l: int, i: int, j: int, u: int, x: T, lt: (T, T) -> bool)
    requires 0 <= l && u < |s| && Parted(s, l, i, j, u, x, lt)
    ensures forall k :: l <= k <= i && k <= u ==> !lt(x, s[k])
    ensures forall k :: j <= k <= u && l <= k ==> !lt(s[k], x)
  {
  }

  lemma PartedStart<T>(s: seq<T>, l: int, u: int, x: T, lt: (T, T) -> bool)
    requires 0 <= l < u - 1 && u < |s| && Le(lt, s[l], x) && Le(lt, x, s[u - 1]) && Le(lt, x, s[u])
    ensures Parted(s, l, l, u - 1, u, x, lt)
  {
  }

  /** Both scans. */
  method Scans<T(!new)>(a: array<T>, l: int, i0: int, j0: int, u: int, x: T, lt: (T, T) -> bool)
    returns (i: int, j: int)
    requires StrictWeak(lt) && 0 <= l <= i0 <= j0 < u < a.Length && (i0 < j0 || (l < i0 && j0 < u - 1))
             && !lt(a[u - 1], x)
    requires Parted(a[..], l, i0, j0, u, x, lt)
    ensures i0 < i < u && l <= j < j0 && !lt(a[i], x) && !lt(x, a[j]) && Parted(a[..], l, i - 1, j + 1, u, x, lt)
  {
    hide StrictWeak, Parted;
    PartedEnds(a[..], l, i0, j0, u, x, lt);
    assert !lt(a[..][j0], x) && !lt(x, a[..][i0]);
    i := ScanUp(a, i0, u, x, lt, if i0 < j0 then j0 else j0 + 1);
    j := ScanDown(a, j0, l, x, lt, if i0 < j0 then i0 else i0 - 1);
    PartedScans(a[..], l, i0, i, j, j0, u, x, lt);
  }

  /** The inner loop of `auxsort`, which never leaves the part: exchange elements until the scans have met. */
  method Meet<T(!new)>(a: array<T>, l: int, u: int, x: T, lt: (T, T) -> bool) returns (i: int, j: int)
    requires StrictWeak(lt) && 1 <= l < u - 1 && u < a.Length && a[u - 1] == x && Parted(a[..], l, l, u - 1, u, x, lt)
    modifies a
    ensures Permutes(old(a[..]), a[..], l, u) && a[u - 1] == x
    ensures l < i < u && l <= j < i && !lt(a[i], x) && Parted(a[..], l, i - 1, j + 1, u, x, lt)
  {
    hide StrictWeak, Parted, Permutes;
    ghost var s := a[..];
    i, j := l, u - 1;
    Irreflexive(lt, x);
    SamePermutes(s, l, u);
    while true
      invariant l <= i <= j < u && a[u - 1] == x && Permutes(s, a[..], l, u) && Parted(a[..], l, i, j, u, x, lt)
      invariant i < j || (l < i && j < u - 1)
      decreases j - i
    {
      i, j := Scans(a, l, i, j, u, x, lt);
      if j < i { return; }
      ghost var t := a[..];
      Swap(a, i, j, l, u);
      PartedSwap(t, a[..], l, i, j, u, x, lt);
      PermutesTwice(s, t, a[..], l, u, l, u);
    }
  }

  /** The pivot is put aside, and at the end between the two sides. */
  method Partition<T(!new)>(a: array<T>, l: int, u: int, m: int, lt: (T, T) -> bool) returns (i: int)
    requires StrictWeak(lt) && 1 <= l && l + 2 < u < a.Length && l < m < u && Le(lt, a[l], a[m]) && Le(lt, a[m], a[u])
    modifies a
    ensures Permutes(old(a[..]), a[..], l, u) && l < i < u && Split(a[..], l, i, u, lt)
  {
    hide StrictWeak, Parted, Permutes, Split, Le;
    ghost var s := a[..];
    var x := a[m];
    var j: int;
    Irreflexive(lt, x);
    Swap(a, m, u - 1, l, u);
    ghost var t := a[..];
    PartedStart(t, l, u, x, lt);
    i, j := Meet(a, l, u, x, lt);
    ghost var v := a[..];
    PermutesTwice(s, t, v, l, u, l, u);
    Swap(a, u - 1, i, l, u);
    PartedSplit(v, a[..], l, i, j, u, x, lt);
    PermutesTwice(s, v, a[..], l, u, l, u);
  }

  /** Outside of the part from `l` to `u` everything is in its place already. */
  ghost predicate Framed<T>(s: seq<T>, lo: int, hi: int, l: int, u: int, lt: (T, T) -> bool)
    requires 0 <= lo && hi < |s|
  {
    forall i, j :: lo <= i < j <= hi && !(l <= i && j <= u) ==> Le(lt, s[i], s[j])
  }

  /** Reordering the part leaves everything else in its place. */
  lemma FramedPermuted<T>(s: seq<T>, t: seq<T>, lo: int, hi: int, l: int, u: int, lt: (T, T) -> bool)
    requires 0 <= lo <= l && u <= hi < |s| && Framed(s, lo, hi, l, u, lt) && Permutes(s, t, l, u)
    ensures Framed(t, lo, hi, l, u, lt)
  {
    forall i, j | lo <= i < j <= hi && !(l <= i && j <= u)
      ensures Le(lt, t[i], t[j])
    {
      var i', j' := i, j;
      if l <= i <= u { i' := WasThere(s, t, l, u, i); }
      if l <= j <= u { j' := WasThere(s, t, l, u, j); }
      assert Le(lt, s[i'], s[j']);
    }
  }

  lemma SplitPermuted<T>(s: seq<T>, t: seq<T>, l: int, p: int, u: int, lo: int, hi: int, lt: (T, T) -> bool)
    requires 0 <= l <= p <= u < |s| && Split(s, l, p, u, lt) && Permutes(s, t, lo, hi) && l <= lo && hi <= u
             && (hi < p || p < lo)
    ensures Split(t, l, p, u, lt)
  {
    forall k | l <= k <= u && k != p
      ensures if k < p then Le(lt, t[k], t[p]) else Le(lt, t[p], t[k])
    {
      if lo <= k <= hi { var i := WasThere(s, t, lo, hi, k); }
    }
  }

  /** One side of the pivot is sorted: only the other remains. */
  lemma FramedRest<T(!new)>(s: seq<T>, lo: int, hi: int, l: int, p: int, u: int, lt: (T, T) -> bool, low: bool)
    requires StrictWeak(lt) && 0 <= lo <= l <= p <= u <= hi < |s| && Framed(s, lo, hi, l, u, lt)
             && Split(s, l, p, u, lt)
    requires if low then Sorted(s, l, p - 1, lt) else Sorted(s, p + 1, u, lt)
    ensures if low then Framed(s, lo, hi, p + 1, u, lt) else Framed(s, lo, hi, l, p - 1, lt)
  {
    forall i, j | lo <= i < j <= hi && !(if low then p + 1 <= i && j <= u else l <= i && j <= p - 1)
      ensures Le(lt, s[i], s[j])
    {
      if l <= i && j <= u && i < p < j { LeTransitive(lt, s[i], s[p], s[j]); }
    }
  }

  function Pow2(n: nat): nat { if n == 0 then 1 else 2 * Pow2(n - 1) }

  function Max(a: nat, b: nat): nat { if a < b then b else a }

  /**
    `auxsort`: sorts the elements from `l0` to `u0` in place. `depth` counts how deep the calls nest: no more than the
    binary logarithm of the number of elements plus one.
   */
  method AuxSort<T(!new)>(a: array<T>, l0: int, u0: int, lt: (T, T) -> bool) returns (ghost depth: nat)
    requires StrictWeak(lt) && 1 <= l0 <= u0 + 1 <= a.Length
    modifies a
    ensures Permutes(old(a[..]), a[..], l0, u0) && Sorted(a[..], l0, u0, lt)
    ensures Pow2(depth) <= u0 - l0 + 2
    decreases u0 - l0 + 1
  {
    hide StrictWeak, Permutes, Framed, Split, Sorted, Le, Pow2, Max;
    var l, u := l0, u0;
    depth := 0;
    SortStarts(a[..], l0, u0, lt);
    while l < u
      invariant l0 <= l <= u + 1 <= u0 + 1 && Pow2(depth) <= u0 - l0 + 2
      invariant Permutes(old(a[..]), a[..], l0, u0) && Framed(a[..], l0, u0, l, u, lt)
      decreases u - l + 1
    {
      ghost var s := a[..];
      var i := FirstThree(a, l, u, lt);
      Reordered(old(a[..]), s, a[..], l0, u0, l, u, lt);
      if u - l == 1 {
        AllSorted(a[..], l0, u0, l, u, lt);
        return;
      }
      if u - l == 2 {
        AllSorted(a[..], l0, u0, l, u, lt);
        return;
      }
      ghost var t := a[..];
      i := Partition(a, l, u, i, lt);
      Reordered(old(a[..]), t, a[..], l0, u0, l, u, lt);
      var j: int;
      ghost var p, low, lw, uw := i, i - l < u - i, l, u;
      if i - l < u - i {
        j := l;
        i := i - 1;
        l := i + 2;
      } else {
        j := i + 1;
        i := u;
        u := j - 2;
      }
      ghost var v := a[..];
      ghost var d := AuxSort(a, j, i, lt);
      SideSorted(old(a[..]), v, a[..], l0, u0, lw, p, uw, lt, low);
      Deeper(d, depth, i - j + 1, u0 - l0 + 1);
      depth := Max(depth, d + 1);
    }
    AllSorted(a[..], l0, u0, l, u, lt);
  }

  lemma SortStarts<T>(s: seq<T>, l: int, u: int, lt: (T, T) -> bool)
    requires 0 <= l <= u + 1 <= |s|
    ensures Permutes(s, s, l, u) && Framed(s, l, u, l, u, lt) && Pow2(0) == 1
  {
  }

  /** A reordered part, in the whole. */
  lemma Reordered<T>(r: seq<T>, s: seq<T>, t: seq<T>, lo: int, hi: int, l: int, u: int, lt: (T, T) -> bool)
    requires Permutes(r, s, lo, hi) && Permutes(s, t, l, u) && 0 <= lo <= l && u <= hi < |s|
    ensures Permutes(r, t, lo, hi) && (Framed(s, lo, hi, l, u, lt) ==> Framed(t, lo, hi, l, u, lt))
  {
    PermutesTwice(r, s, t, lo, hi, l, u);
    if Framed(s, lo, hi, l, u, lt) { FramedPermuted(s, t, lo, hi, l, u, lt); }
  }

  /** The nested call has sorted one side: what remains is the other. */
  lemma SideSorted<T(!new)>(r: seq<T>, s: seq<T>, t: seq<T>, lo: int, hi: int, l: int, p: int, u: int,
                            lt: (T, T) -> bool, low: bool)
    requires StrictWeak(lt) && Permutes(r, s, lo, hi) && 0 <= lo <= l <= p <= u <= hi < |s|
    requires Framed(s, lo, hi, l, u, lt) && Split(s, l, p, u, lt)
    requires if low then Permutes(s, t, l, p - 1) else Permutes(s, t, p + 1, u)
    requires |t| == |s| && if low then Sorted(t, l, p - 1, lt) else Sorted(t, p + 1, u, lt)
    ensures Permutes(r, t, lo, hi)
    ensures if low then Framed(t, lo, hi, p + 1, u, lt) else Framed(t, lo, hi, l, p - 1, lt)
  {
    hide StrictWeak, Framed, Split, Sorted;
    if low { SplitPermuted(s, t, l, p, u, l, p - 1, lt); } else { SplitPermuted(s, t, l, p, u, p + 1, u, lt); }
    assert Permutes(s, t, l, u);
    Reordered(r, s, t, lo, hi, l, u, lt);
    FramedRest(t, lo, hi, l, p, u, lt, low);
  }

  lemma AllSorted<T>(s: seq<T>, lo: int, hi: int, l: int, u: int, lt: (T, T) -> bool)
    requires 0 <= lo <= l && u <= hi < |s| && Framed(s, lo, hi, l, u, lt) && Sorted(s, l, u, lt)
    ensures Sorted(s, lo, hi, lt)
  {
  }

  /** The part that is sorted by a nested call is less than half as long. */
  lemma Deeper(d: nat, depth: nat, m: int, n: int)
    requires 0 <= 2 * m < n && Pow2(d) <= m + 1 && Pow2(depth) <= n + 1
    ensures Pow2(Max(depth, d + 1)) <= n + 1
  {
  }

  /** `table.sort`, for the elements 1 to n of a table, which are those of the array from its second place on. */
  method TableSort<T(!new)>(a: array<T>, lt: (T, T) -> bool)
    requires StrictWeak(lt) && a.Length >= 1
    modifies a
    ensures multiset(a[..]) == multiset(old(a[..])) && a[0] == old(a[0])
    ensures forall i, j :: 1 <= i < j < a.Length ==> !lt(a[j], a[i])
  {
    ghost var d := AuxSort(a, 1, a.Length - 1, lt);
    assert forall i, j :: 1 <= i < j < a.Length ==> Le(lt, a[..][i], a[..][j]);
  }
}
