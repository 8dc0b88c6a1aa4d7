/** How `rehash` chooses the size of the array part of a table (`ltable.c`). */
module TableSizes {
  import opened TableNodes

  function Pow2(i: nat): (r: nat)
    ensures r > 0
  {
    if i == 0 then 1 else 2 * Pow2(i - 1)
  }

  lemma {:induction false} Pow2Monotone(i: nat, j: nat)
    requires i <= j
    ensures Pow2(i) <= Pow2(j)
    decreases j
  {
    if i < j { Pow2Monotone(i, j - 1); }
  }

  const MAXBITS: nat := 26

  /** `luaO_log2`. */
  function Log2(x: nat): (r: int)
    ensures r >= -1
  {
    if x == 0 then -1 else 1 + Log2(x / 2)
  }

  function CeilLog2(x: nat): (r: nat)
    requires x >= 1
  {
    Log2(x - 1) + 1
  }

  lemma {:induction false} Log2Bounds(x: nat)
    requires x >= 1
    ensures Log2(x) >= 0 && Pow2(Log2(x)) <= x < 2 * Pow2(Log2(x))
  {
    if x > 1 { Log2Bounds(x / 2); }
  }

  /** `ceillog2` gives the least power of two that is not below. */
  lemma CeilLog2Bounds(x: nat)
    requires x >= 1
    ensures x <= Pow2(CeilLog2(x)) && (CeilLog2(x) > 0 ==> Pow2(CeilLog2(x) - 1) < x)
  {
    if x > 1 { Log2Bounds(x - 1); }
  }

  // Sets of integer keys

  function Slice(s: set<int>, i: nat): set<int> {
    set k | k in s && k <= Pow2(i) && (i > 0 ==> k > Pow2(i - 1))
  }

  function Upto(s: set<int>, n: int): set<int> { set k | k in s && k <= n }

  ghost predicate Candidates(s: set<int>) { forall k :: k in s ==> 1 <= k <= Pow2(MAXBITS) }

  /** `nums[i]` is the number of keys between two powers of two. */
  ghost predicate Counts(nums: seq<nat>, s: set<int>) {
    |nums| == MAXBITS + 1 && forall i :: 0 <= i <= MAXBITS ==> nums[i] == |Slice(s, i)|
  }

  lemma UptoNext(s: set<int>, i: nat)
    requires i > 0
    ensures |Upto(s, Pow2(i))| == |Upto(s, Pow2(i - 1))| + |Slice(s, i)|
  {
    assert Upto(s, Pow2(i)) == Upto(s, Pow2(i - 1)) + Slice(s, i);
    assert Upto(s, Pow2(i - 1)) !! Slice(s, i);
  }

  /** At most `n` keys are at most `n`. */
  lemma {:induction false} UptoBound(s: set<int>, n: nat)
    requires forall k :: k in s ==> k >= 1
    ensures |Upto(s, n)| <= n
    decreases n
  {
    if n == 0 {
      assert Upto(s, 0) == {};
    } else {
      UptoBound(s, n - 1);
      var one: set<int> := {n};
      assert Upto(s, n) <= Upto(s, n - 1) + one;
      SubsetSize(Upto(s, n), Upto(s, n - 1) + one);
    }
  }

  lemma SubsetSize<T>(a: set<T>, b: set<T>)
    requires a <= b
    ensures |a| <= |b|
  {
    assert b == a + (b - a);
  }

  lemma UptoAll(s: set<int>, n: int)
    requires |Upto(s, n)| == |s|
    ensures forall m :: m >= n ==> Upto(s, m) == s
    ensures forall k :: k in s ==> k <= n
  {
    assert Upto(s, n) <= s;
    assert s == Upto(s, n) + (s - Upto(s, n));
    assert s - Upto(s, n) == {};
    assert forall k :: k in s ==> k in Upto(s, n);
    forall m | m >= n
      ensures Upto(s, m) == s
    {
    }
  }

  // Counting

  /** The keys after one more was counted. */
  lemma CountOne(nums: seq<nat>, s: set<int>, k: int)
    requires Counts(nums, s) && Candidates(s) && 1 <= k <= Pow2(MAXBITS) && k !in s
    ensures CeilLog2(k) <= MAXBITS
    ensures Counts(nums[CeilLog2(k) := nums[CeilLog2(k)] + 1], s + {k}) && Candidates(s + {k})
  {
    hide Pow2, CeilLog2, Slice;
    var c := CeilLog2(k);
    CeilLog2Bounds(k);
    if c > MAXBITS { Pow2Monotone(MAXBITS, c - 1); }
    forall i | 0 <= i <= MAXBITS
      ensures nums[c := nums[c] + 1][i] == |Slice(s + {k}, i)|
    {
      SliceAdd(s, k, i);
    }
  }

  lemma SliceAdd(s: set<int>, k: int, i: nat)
    requires k >= 1 && k !in s
    ensures |Slice(s + {k}, i)| == |Slice(s, i)| + if i == CeilLog2(k) then 1 else 0
  {
    hide Pow2, CeilLog2;
    var c := CeilLog2(k);
    CeilLog2Bounds(k);
    if i == c {
      assert Slice(s + {k}, i) == Slice(s, i) + {k};
    } else {
      if i < c { Pow2Monotone(i, c - 1); } else { Pow2Monotone(c, i - 1); }
      assert Slice(s + {k}, i) == Slice(s, i);
    }
  }

  function Counted(k: Key): set<int> {
    if k.IntKey? && 0 < k.n <= Pow2(MAXBITS) then {k.n} else {}
  }

  /** `countint`. */
  method CountInt(k: Key, nums: array<nat>, ghost s: set<int>) returns (r: nat)
    requires Counts(nums[..], s) && Candidates(s) && Counted(k) !! s
    modifies nums
    ensures Counts(nums[..], s + Counted(k)) && Candidates(s + Counted(k)) && r == |Counted(k)|
  {
    if k.IntKey? && 0 < k.n <= Pow2(MAXBITS) {
      CountOne(nums[..], s, k.n);
      ghost var before := nums[..];
      nums[CeilLog2(k.n)] := nums[CeilLog2(k.n)] + 1;
      assert nums[..] == before[CeilLog2(k.n) := before[CeilLog2(k.n)] + 1];
      return 1;
    }
    assert s + Counted(k) == s;
    r := 0;
  }

  /** More than half of the slots 1 to `n` would be in use. */
  ghost predicate Dense(s: set<int>, n: int) { |Upto(s, n)| > n / 2 }

  /** The largest power of two of which more than half would be in use, or 0. */
  ghost predicate Optimal(s: set<int>, n: nat) {
    && (n == 0 || exists i :: 0 <= i <= MAXBITS && n == Pow2(i))
    && (n > 0 ==> Dense(s, n))
    && forall i :: 0 <= i <= MAXBITS && Dense(s, Pow2(i)) ==> Pow2(i) <= n
  }

  /** `computesizes`. */
  method ComputeSizes(nums: array<nat>, narray: nat, ghost s: set<int>) returns (n: nat, na: nat)
    requires Counts(nums[..], s) && Candidates(s) && narray == |s|
    ensures Optimal(s, n) && na == |Upto(s, n)|
  {
    hide Pow2, Slice, Upto, Candidates;
    var i: nat, twotoi := 0, 1;
    var a := 0;
    n, na := 0, 0;
    UptoNone(s);
    while twotoi / 2 < narray
      invariant i <= MAXBITS + 1 && twotoi == Pow2(i) && (i > 0 ==> a == |Upto(s, twotoi / 2)|) && (i == 0 ==> a == 0)
      invariant na == |Upto(s, n)| && (n == 0 || exists j :: 0 <= j < i && n == Pow2(j)) && (n > 0 ==> Dense(s, n))
      invariant forall j :: 0 <= j < i && Dense(s, Pow2(j)) ==> Pow2(j) <= n
      decreases MAXBITS + 1 - i
    {
      AllCounted(s, i, a, narray);
      CountedUpto(s, i);
      ghost var m := n;
      if nums[i] > 0 {
        a := a + nums[i];
        if a > twotoi / 2 {
          n, na := twotoi, a;
        }
      } else {
        NoneHere(s, i);
      }
      assert a == |Upto(s, twotoi)|;
      NewBest(s, m, n, i);
      Pow2Step(i);
      if a == narray {
        NoMore(s, i, n);
        return;
      }
      i := i + 1;
      twotoi := twotoi * 2;
    }
    TooFew(s, i, n, narray);
  }

  lemma UptoNone(s: set<int>)
    requires Candidates(s)
    ensures |Upto(s, 0)| == 0 && Pow2(0) == 1
  {
    assert Upto(s, 0) == {};
  }

  lemma Pow2Step(i: nat)
    ensures Pow2(i + 1) == 2 * Pow2(i)
  {
  }

  lemma AllCounted(s: set<int>, i: nat, a: nat, narray: nat)
    requires Candidates(s) && narray == |s| && i <= MAXBITS + 1 && (i > 0 ==> a == |Upto(s, Pow2(i) / 2)|)
             && Pow2(i) / 2 < narray
    ensures i <= MAXBITS
  {
    if i == MAXBITS + 1 {
      UptoBound(s, Pow2(MAXBITS));
      assert Upto(s, Pow2(MAXBITS)) == s;
    }
  }

  lemma CountedUpto(s: set<int>, i: nat)
    ensures |Upto(s, Pow2(i))| == (if i == 0 then 0 else |Upto(s, Pow2(i) / 2)|) + |Slice(s, i)|
  {
    hide *;
    if i > 0 {
      UptoNext(s, i);
      Pow2Step(i - 1);
    } else {
      UptoOne(s);
    }
  }

  lemma UptoOne(s: set<int>)
    ensures |Upto(s, Pow2(0))| == |Slice(s, 0)|
  {
    assert Upto(s, 1) == Slice(s, 0);
  }

  lemma NoneHere(s: set<int>, i: nat)
    requires |Slice(s, i)| == 0 && Candidates(s)
    ensures !Dense(s, Pow2(i))
  {
    CountedUpto(s, i);
    if i > 0 { UptoBound(s, Pow2(i) / 2); }
  }

  lemma NewBest(s: set<int>, m: nat, n: nat, i: nat)
    requires forall j :: 0 <= j < i && Dense(s, Pow2(j)) ==> Pow2(j) <= m
    requires if Dense(s, Pow2(i)) then n == Pow2(i) else n == m
    ensures forall j :: 0 <= j < i + 1 && Dense(s, Pow2(j)) ==> Pow2(j) <= n
  {
    forall j | 0 <= j < i + 1 && Dense(s, Pow2(j))
      ensures Pow2(j) <= n
    {
      Pow2Monotone(j, i);
    }
  }

  lemma NoMore(s: set<int>, i: nat, n: nat)
    requires Candidates(s)
    requires |Upto(s, Pow2(i))| == |s| && forall j :: 0 <= j < i + 1 && Dense(s, Pow2(j)) ==> Pow2(j) <= n
    ensures forall j :: 0 <= j <= MAXBITS && Dense(s, Pow2(j)) ==> Pow2(j) <= n
  {
    UptoAll(s, Pow2(i));
    UptoBound(s, Pow2(i));
    forall j | 0 <= j <= MAXBITS && Dense(s, Pow2(j))
      ensures Pow2(j) <= n
    {
      if j > i { Pow2Monotone(i + 1, j); }
    }
  }

  lemma TooFew(s: set<int>, i: nat, n: nat, narray: nat)
    requires narray == |s| && Pow2(i) / 2 >= narray && forall j :: 0 <= j < i && Dense(s, Pow2(j)) ==> Pow2(j) <= n
    ensures forall j :: 0 <= j <= MAXBITS && Dense(s, Pow2(j)) ==> Pow2(j) <= n
  {
    forall j | 0 <= j <= MAXBITS && Dense(s, Pow2(j))
      ensures Pow2(j) <= n
    {
      if j >= i {
        Pow2Monotone(i, j);
        SubsetSize(Upto(s, Pow2(j)), s);
      }
    }
  }
}
