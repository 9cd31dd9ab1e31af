/** The in-place three-way quicksort of lib/qsort.c.

    One array slot stands for one element of `es` bytes, and the comparison function of the caller is a
    parameter.  `Partition` is the `for (;;)` loop of `qs1` with its two labels; `Qs1` is the code around it,
    which recurses on the smaller side and jumps back to `start` with the larger one. */
module QuickSort {

  /** One call of the comparison function. */
  function Compare<T>(cmp: (T, T) -> int, x: T, y: T): int {
    cmp(x, y)
  }

  ghost predicate Opposed<T>(cmp: (T, T) -> int, x: T, y: T) {
    Compare(cmp, x, y) < 0 <==> Compare(cmp, y, x) > 0
  }

  ghost predicate Chained<T>(cmp: (T, T) -> int, x: T, y: T, z: T) {
    Compare(cmp, x, y) <= 0 && Compare(cmp, y, z) <= 0 ==> Compare(cmp, x, z) <= 0
  }

  /** What a comparison function has to satisfy: its sign is antisymmetric and "not greater" is transitive. */
  ghost predicate TotalPreorder<T(!new)>(cmp: (T, T) -> int) {
    && (forall x, y :: Opposed(cmp, x, y))
    && (forall x, y, z :: Chained(cmp, x, y, z))
  }

  ghost predicate Sorted<T>(cmp: (T, T) -> int, s: seq<T>) {
    forall i, j :: 0 <= i <= j < |s| ==> Compare(cmp, s[i], s[j]) <= 0
  }

  lemma Reflexive<T(!new)>(cmp: (T, T) -> int, x: T)
    requires TotalPreorder(cmp)
    ensures Compare(cmp, x, x) == 0
  {
    assert Opposed(cmp, x, x);
  }

  /** Comparing with an element equivalent to the pivot is as good as comparing with the pivot. */
  lemma SameSide<T(!new)>(cmp: (T, T) -> int, x: T, q: T, p: T)
    requires TotalPreorder(cmp) && Compare(cmp, q, p) == 0
    ensures Compare(cmp, x, q) < 0 <==> Compare(cmp, x, p) < 0
    ensures Compare(cmp, x, q) == 0 <==> Compare(cmp, x, p) == 0
    ensures Compare(cmp, q, x) < 0 <==> Compare(cmp, x, p) > 0
    ensures Compare(cmp, q, x) == 0 <==> Compare(cmp, x, p) == 0
  {
    assert Opposed(cmp, p, q) && Opposed(cmp, q, p);
    assert Opposed(cmp, x, q) && Opposed(cmp, q, x);
    assert Opposed(cmp, x, p) && Opposed(cmp, p, x);
    assert Chained(cmp, x, q, p) && Chained(cmp, x, p, q);
    assert Chained(cmp, q, p, x) && Chained(cmp, p, q, x);
  }

  /** The five regions of the array during a pass, for pivot `p`: less in `[lo, i)`, unknown in `[i, lp)`,
      equal in `[lp, hp]`, unknown in `(hp, j]`, greater in `(j, hi)`. */
  ghost predicate Regions<T>(cmp: (T, T) -> int, s: seq<T>, p: T, lo: int, i: int, lp: int, hp: int, j: int, hi: int) {
    && 0 <= lo <= i <= lp <= hp <= j < hi <= |s|
    && (forall k :: lo <= k < i ==> Compare(cmp, s[k], p) < 0)
    && (forall k :: lp <= k <= hp ==> Compare(cmp, s[k], p) == 0)
    && (forall k :: j < k < hi ==> Compare(cmp, s[k], p) > 0)
  }

  ghost predicate SameCount<T>(s: seq<T>, t: seq<T>, lo: int, hi: int, x: T)
    requires 0 <= lo <= hi <= |s| == |t|
  {
    multiset(s[lo..hi])[x] == multiset(t[lo..hi])[x]
  }

  ghost predicate SameOutside<T>(s: seq<T>, t: seq<T>, lo: int, hi: int, k: int)
    requires 0 <= lo <= hi <= |s| == |t|
  {
    0 <= k < |s| && (k < lo || hi <= k) ==> s[k] == t[k]
  }

  /** `s` and `t` differ only inside `[lo, hi)`, where one is a rearrangement of the other. */
  ghost predicate Rearranged<T(!new)>(s: seq<T>, t: seq<T>, lo: int, hi: int) {
    && 0 <= lo <= hi <= |s| == |t|
    && (forall x :: SameCount(s, t, lo, hi, x))
    && (forall k :: SameOutside(s, t, lo, hi, k))
  }

  lemma RearrangedMultiset<T(!new)>(s: seq<T>, t: seq<T>, lo: int, hi: int)
    requires Rearranged(s, t, lo, hi)
    ensures multiset(s[lo..hi]) == multiset(t[lo..hi])
  {
    forall x ensures multiset(s[lo..hi])[x] == multiset(t[lo..hi])[x] {
      assert SameCount(s, t, lo, hi, x);
    }
  }

  lemma RearrangedRefl<T(!new)>(s: seq<T>, lo: int, hi: int)
    requires 0 <= lo <= hi <= |s|
    ensures Rearranged(s, s, lo, hi)
  {
  }

  lemma RearrangedLength<T(!new)>(s: seq<T>, t: seq<T>, lo: int, hi: int)
    requires Rearranged(s, t, lo, hi)
    ensures |s| == |t|
  {
  }

  lemma RearrangedTrans<T(!new)>(s: seq<T>, t: seq<T>, u: seq<T>, lo: int, hi: int)
    requires Rearranged(s, t, lo, hi) && Rearranged(t, u, lo, hi)
    ensures Rearranged(s, u, lo, hi)
  {
    forall x ensures SameCount(s, u, lo, hi, x) {
      assert SameCount(s, t, lo, hi, x) && SameCount(t, u, lo, hi, x);
    }
    forall k ensures SameOutside(s, u, lo, hi, k) {
      assert SameOutside(s, t, lo, hi, k) && SameOutside(t, u, lo, hi, k);
    }
  }

  /** Rearranging a part of a segment rearranges the segment. */
  lemma RearrangedWiden<T(!new)>(s: seq<T>, t: seq<T>, lo: int, hi: int, lo': int, hi': int)
    requires Rearranged(s, t, lo, hi) && 0 <= lo' <= lo <= hi <= hi' <= |s|
    ensures Rearranged(s, t, lo', hi')
  {
    RearrangedMultiset(s, t, lo, hi);
    forall k | 0 <= k < |s| && (k < lo || hi <= k) ensures s[k] == t[k] {
      assert SameOutside(s, t, lo, hi, k);
    }
    assert s[lo'..lo] == t[lo'..lo] && s[hi..hi'] == t[hi..hi'];
    assert s[lo'..hi'] == s[lo'..lo] + s[lo..hi] + s[hi..hi'];
    assert t[lo'..hi'] == t[lo'..lo] + t[lo..hi] + t[hi..hi'];
  }

  /** Every element of a rearranged segment was in the segment before. */
  lemma RearrangedElement<T(!new)>(s: seq<T>, t: seq<T>, lo: int, hi: int, k: int) returns (k': int)
    requires Rearranged(s, t, lo, hi) && lo <= k < hi
    ensures lo <= k' < hi && s[k'] == t[k]
  {
    RearrangedMultiset(s, t, lo, hi);
    var x := t[lo..hi][k - lo];
    assert x in multiset(t[lo..hi]);
    assert x in s[lo..hi];
    var m :| 0 <= m < hi - lo && s[lo..hi][m] == x;
    k' := lo + m;
  }

  lemma SwapRearranges<T(!new)>(s: seq<T>, i: int, j: int, lo: int, hi: int)
    requires 0 <= lo <= i < hi <= |s| && lo <= j < hi
    ensures Rearranged(s, s[i := s[j]][j := s[i]], lo, hi)
  {
    var t := s[i := s[j]][j := s[i]];
    var u := s[lo..hi];
    assert t[lo..hi] == u[i - lo := u[j - lo]][j - lo := u[i - lo]];
    assert multiset(t[lo..hi]) == multiset(u);
  }

  /** qsexc: exchange two elements. */
  method Exchange<T>(a: array<T>, i: int, j: int)
    requires 0 <= i < a.Length && 0 <= j < a.Length
    modifies a
    ensures a[..] == old(a[..])[i := old(a[..])[j]][j := old(a[..])[i]]
  {
    var c := a[i];
    a[i] := a[j];
    a[j] := c;
  }

  lemma RotateRearranges<T(!new)>(s: seq<T>, i: int, j: int, k: int, lo: int, hi: int)
    requires 0 <= lo <= i < hi <= |s| && lo <= j < hi && lo <= k < hi && i != j && i != k
    ensures Rearranged(s, s[i := s[k]][k := s[j]][j := s[i]], lo, hi)
  {
    var t := s[i := s[k]][k := s[i]];
    SwapRearranges(s, i, k, lo, hi);
    SwapRearranges(t, k, j, lo, hi);
    RearrangedTrans(s, t, t[k := t[j]][j := t[k]], lo, hi);
    assert t[k := t[j]][j := t[k]] == s[i := s[k]][k := s[j]][j := s[i]];
  }

  /** qstexc: `i` takes the element of `k`, `k` that of `j`, and `j` that of `i`. */
  method ThreeWayExchange<T>(a: array<T>, i: int, j: int, k: int)
    requires 0 <= i < a.Length && 0 <= j < a.Length && 0 <= k < a.Length && i != j && i != k
    modifies a
    ensures a[..] == old(a[..])[i := old(a[..])[k]][k := old(a[..])[j]][j := old(a[..])[i]]
  {
    var c := a[i];
    a[i] := a[k];
    a[k] := a[j];
    a[j] := c;
  }

  ghost predicate ThreeParts<T>(cmp: (T, T) -> int, s: seq<T>, p: T, first: int, lp: int, hp: int, last: int) {
    && 0 <= first <= lp <= hp < last <= |s|
    && (forall k :: first <= k < lp ==> Compare(cmp, s[k], p) < 0)
    && (forall k :: lp <= k <= hp ==> Compare(cmp, s[k], p) == 0)
    && (forall k :: hp < k < last ==> Compare(cmp, s[k], p) > 0)
  }

  /** What a pass keeps: the regions, and that the array is still a rearrangement of what it was. */
  ghost predicate Pass<T(!new)>(cmp: (T, T) -> int, s0: seq<T>, s: seq<T>, p: T,
                                lo: int, i: int, lp: int, hp: int, j: int, hi: int) {
    Regions(cmp, s, p, lo, i, lp, hp, j, hi) && Rearranged(s0, s, lo, hi)
  }

  lemma PassStart<T(!new)>(cmp: (T, T) -> int, s: seq<T>, lo: int, mid: int, hi: int)
    requires TotalPreorder(cmp) && 0 <= lo <= mid < hi <= |s|
    ensures Pass(cmp, s, s, s[mid], lo, lo, mid, mid, hi - 1, hi)
  {
    Reflexive(cmp, s[mid]);
    RearrangedRefl(s, lo, hi);
  }

  lemma PassEqual<T(!new)>(cmp: (T, T) -> int, s0: seq<T>, s: seq<T>, p: T,
                           lo: int, i: int, lp: int, hp: int, j: int, hi: int)
    requires Pass(cmp, s0, s, p, lo, i, lp, hp, j, hi)
    ensures lo <= i <= lp <= hp <= j < hi <= |s|
    ensures Compare(cmp, s[lp], p) == 0 && Compare(cmp, s[hp], p) == 0
  {
  }

  lemma PassDone<T(!new)>(cmp: (T, T) -> int, s0: seq<T>, s: seq<T>, p: T, lo: int, lp: int, hp: int, hi: int)
    requires Pass(cmp, s0, s, p, lo, lp, lp, hp, hp, hi)
    ensures ThreeParts(cmp, s, p, lo, lp, hp, hi) && Rearranged(s0, s, lo, hi)
  {
  }

  lemma GrowLess<T(!new)>(cmp: (T, T) -> int, s0: seq<T>, s: seq<T>, p: T,
                          lo: int, i: int, lp: int, hp: int, j: int, hi: int)
    requires Pass(cmp, s0, s, p, lo, i, lp, hp, j, hi) && i < lp && Compare(cmp, s[i], p) < 0
    ensures Pass(cmp, s0, s, p, lo, i + 1, lp, hp, j, hi)
  {
  }

  lemma GrowGreater<T(!new)>(cmp: (T, T) -> int, s0: seq<T>, s: seq<T>, p: T,
                             lo: int, i: int, lp: int, hp: int, j: int, hi: int)
    requires Pass(cmp, s0, s, p, lo, i, lp, hp, j, hi) && hp < j && Compare(cmp, s[j], p) > 0
    ensures Pass(cmp, s0, s, p, lo, i, lp, hp, j - 1, hi)
  {
  }

  /** An element of the lower unknown region equals the pivot: it moves next to the equal region. */
  lemma GrowEqualDown<T(!new)>(cmp: (T, T) -> int, s0: seq<T>, s: seq<T>, p: T,
                               lo: int, i: int, lp: int, hp: int, j: int, hi: int)
    requires Pass(cmp, s0, s, p, lo, i, lp, hp, j, hi) && i < lp && Compare(cmp, s[i], p) == 0
    ensures Pass(cmp, s0, s[i := s[lp - 1]][lp - 1 := s[i]], p, lo, i, lp - 1, hp, j, hi)
  {
    SwapRearranges(s, i, lp - 1, lo, hi);
    RearrangedTrans(s0, s, s[i := s[lp - 1]][lp - 1 := s[i]], lo, hi);
  }

  /** An element of the upper unknown region equals the pivot: it moves next to the equal region. */
  lemma GrowEqualUp<T(!new)>(cmp: (T, T) -> int, s0: seq<T>, s: seq<T>, p: T,
                             lo: int, i: int, lp: int, hp: int, j: int, hi: int)
    requires Pass(cmp, s0, s, p, lo, i, lp, hp, j, hi) && hp < j && Compare(cmp, s[j], p) == 0
    ensures Pass(cmp, s0, s[hp + 1 := s[j]][j := s[hp + 1]], p, lo, i, lp, hp + 1, j, hi)
  {
    SwapRearranges(s, hp + 1, j, lo, hi);
    RearrangedTrans(s0, s, s[hp + 1 := s[j]][j := s[hp + 1]], lo, hi);
  }

  /** A small element above and a large one below change places. */
  lemma ExchangeSides<T(!new)>(cmp: (T, T) -> int, s0: seq<T>, s: seq<T>, p: T,
                               lo: int, i: int, lp: int, hp: int, j: int, hi: int)
    requires Pass(cmp, s0, s, p, lo, i, lp, hp, j, hi) && i < lp && hp < j
    requires Compare(cmp, s[i], p) > 0 && Compare(cmp, s[j], p) < 0
    ensures Pass(cmp, s0, s[i := s[j]][j := s[i]], p, lo, i + 1, lp, hp, j - 1, hi)
  {
    SwapRearranges(s, i, j, lo, hi);
    RearrangedTrans(s0, s, s[i := s[j]][j := s[i]], lo, hi);
  }

  /** A small element above, nothing unknown below: the equal region moves up by one. */
  lemma ShiftEqualUp<T(!new)>(cmp: (T, T) -> int, s0: seq<T>, s: seq<T>, p: T,
                              lo: int, lp: int, hp: int, j: int, hi: int)
    requires Pass(cmp, s0, s, p, lo, lp, lp, hp, j, hi) && hp < j && Compare(cmp, s[j], p) < 0
    ensures Pass(cmp, s0, s[lp := s[j]][j := s[hp + 1]][hp + 1 := s[lp]], p, lo, lp + 1, lp + 1, hp + 1, j, hi)
  {
    RotateRearranges(s, lp, hp + 1, j, lo, hi);
    RearrangedTrans(s0, s, s[lp := s[j]][j := s[hp + 1]][hp + 1 := s[lp]], lo, hi);
  }

  /** A large element below, nothing unknown above: the equal region moves down by one. */
  lemma ShiftEqualDown<T(!new)>(cmp: (T, T) -> int, s0: seq<T>, s: seq<T>, p: T,
                                lo: int, i: int, lp: int, hp: int, hi: int)
    requires Pass(cmp, s0, s, p, lo, i, lp, hp, hp, hi) && i < lp && Compare(cmp, s[i], p) > 0
    ensures Pass(cmp, s0, s[hp := s[i]][i := s[lp - 1]][lp - 1 := s[hp]], p, lo, i, lp - 1, hp - 1, hp - 1, hi)
  {
    RotateRearranges(s, hp, lp - 1, i, lo, hi);
    RearrangedTrans(s0, s, s[hp := s[i]][i := s[lp - 1]][lp - 1 := s[hp]], lo, hi);
  }

  /** The test at the top of the `for`: look at the lowest unknown element.  `again` says the `for` starts
      over; otherwise that element is greater than the pivot. */
  method LookBelow<T(!new)>(cmp: (T, T) -> int, a: array<T>, ghost s0: seq<T>, ghost p: T,
                            lo: int, i: int, lp: int, hp: int, j: int, hi: int)
    returns (i': int, lp': int, again: bool)
    requires TotalPreorder(cmp) && Pass(cmp, s0, a[..], p, lo, i, lp, hp, j, hi)
    requires 0 <= lo <= i < lp <= hp <= j < hi <= a.Length && Compare(cmp, a[lp], p) == 0
    modifies a
    ensures Pass(cmp, s0, a[..], p, lo, i', lp', hp, j, hi) && lo <= i' <= lp' <= hp
    ensures if again then lp' - i' < lp - i else (i', lp') == (i, lp) && Compare(cmp, a[i], p) > 0
  {
    hide Pass, TotalPreorder;
    ghost var s := a[..];
    SameSide(cmp, s[i], s[lp], p);
    i', lp', again := i, lp, false;
    var c := Compare(cmp, a[i], a[lp]);
    if c == 0 {
      GrowEqualDown(cmp, s0, s, p, lo, i, lp, hp, j, hi);
      Exchange(a, i, lp - 1);
      lp', again := lp - 1, true;
    } else if c < 0 {
      GrowLess(cmp, s0, s, p, lo, i, lp, hp, j, hi);
      i', again := i + 1, true;
    }
  }

  /** The test at the label `loop`: look at the highest unknown element.  `top` says the `for` starts over;
      otherwise control comes back to the label. */
  method LookAbove<T(!new)>(cmp: (T, T) -> int, a: array<T>, ghost s0: seq<T>, ghost p: T,
                            lo: int, i: int, lp: int, hp: int, j: int, hi: int)
    returns (i': int, lp': int, hp': int, j': int, top: bool)
    requires TotalPreorder(cmp) && Pass(cmp, s0, a[..], p, lo, i, lp, hp, j, hi)
    requires 0 <= lo <= i <= lp <= hp < j < hi <= a.Length && Compare(cmp, a[hp], p) == 0
    requires i < lp ==> Compare(cmp, a[i], p) > 0
    modifies a
    ensures Pass(cmp, s0, a[..], p, lo, i', lp', hp', j', hi) && lo <= i' <= lp' <= hp' <= j' < hi
    ensures lp' - i' <= lp - i && j' - hp' < j - hp
    ensures !top && i' < lp' ==> Compare(cmp, a[i'], p) > 0
  {
    hide Pass, TotalPreorder;
    ghost var s := a[..];
    SameSide(cmp, s[j], s[hp], p);
    i', lp', hp', j', top := i, lp, hp, j, false;
    var c := Compare(cmp, a[hp], a[j]);
    if c == 0 {
      GrowEqualUp(cmp, s0, s, p, lo, i, lp, hp, j, hi);
      Exchange(a, hp + 1, j);
      hp' := hp + 1;
    } else if c > 0 {
      if i == lp {
        ShiftEqualUp(cmp, s0, s, p, lo, lp, hp, j, hi);
        ThreeWayExchange(a, i, hp + 1, j);
        i', lp', hp' := lp + 1, lp + 1, hp + 1;
      } else {
        ExchangeSides(cmp, s0, s, p, lo, i, lp, hp, j, hi);
        Exchange(a, i, j);
        j', i', top := j - 1, i + 1, true;
      }
    } else {
      GrowGreater(cmp, s0, s, p, lo, i, lp, hp, j, hi);
      j' := j - 1;
    }
  }

  /** One pass of `qs1`.  `top` is false when control is at the label `loop`, past the first test. */
  method Partition<T(!new)>(cmp: (T, T) -> int, a: array<T>, lo: int, hi: int) returns (lp: int, hp: int, ghost p: T)
    requires TotalPreorder(cmp) && 0 <= lo < hi <= a.Length
    modifies a
    ensures lo <= lp <= hp < hi
    ensures ThreeParts(cmp, a[..], p, lo, lp, hp, hi)
    ensures Rearranged(old(a[..]), a[..], lo, hi)
  {
    hide Pass, ThreeParts, Rearranged, TotalPreorder;
    hp := lo + (hi - lo) / 2;
    lp := hp;
    var i, j := lo, hi - 1;
    var top := true;
    ghost var s0 := a[..];
    p := a[lp];
    PassStart(cmp, s0, lo, hp, hi);
    while true
      invariant lo <= i <= lp <= hp <= j < hi
      invariant Pass(cmp, s0, a[..], p, lo, i, lp, hp, j, hi)
      invariant !top && i < lp ==> Compare(cmp, a[i], p) > 0
      decreases (lp - i) + (j - hp)
    {
      if top && i < lp {
        PassEqual(cmp, s0, a[..], p, lo, i, lp, hp, j, hi);
        var again;
        i, lp, again := LookBelow(cmp, a, s0, p, lo, i, lp, hp, j, hi);
        if again { continue; }
      }
      if j > hp {
        PassEqual(cmp, s0, a[..], p, lo, i, lp, hp, j, hi);
        i, lp, hp, j, top := LookAbove(cmp, a, s0, p, lo, i, lp, hp, j, hi);
        continue;
      }
      if i == lp {
        PassDone(cmp, s0, a[..], p, lo, lp, hp, hi);
        return;
      }
      ShiftEqualDown(cmp, s0, a[..], p, lo, i, lp, hp, hi);
      ThreeWayExchange(a, j, lp - 1, i);
      lp, hp, j, top := lp - 1, hp - 1, hp - 1, true;
    }
  }

  function Pow2(n: nat): (r: nat)
    ensures r >= 1
  {
    if n == 0 then 1 else 2 * Pow2(n - 1)
  }

  /** What is settled once only `[first, last)` is left to sort: every pair with a member outside it. */
  ghost predicate Settled<T>(cmp: (T, T) -> int, s: seq<T>, lo: int, first: int, last: int, hi: int) {
    && 0 <= lo <= first <= last <= hi <= |s|
    && forall i, j :: lo <= i <= j < hi && (i < first || last <= j) ==> Compare(cmp, s[i], s[j]) <= 0
  }

  lemma RearrangedOutside<T(!new)>(s: seq<T>, t: seq<T>, lo: int, hi: int, k: int)
    requires Rearranged(s, t, lo, hi) && 0 <= k < |s| && (k < lo || hi <= k)
    ensures s[k] == t[k]
  {
    assert SameOutside(s, t, lo, hi, k);
  }

  /** Sorting one side of a partition keeps the three parts. */
  lemma ThreePartsKept<T(!new)>(cmp: (T, T) -> int, t: seq<T>, u: seq<T>, p: T, first: int, lp: int, hp: int, last: int,
                          lo: int, hi: int)
    requires ThreeParts(cmp, t, p, first, lp, hp, last) && Rearranged(t, u, lo, hi)
    requires (lo, hi) == (first, lp) || (lo, hi) == (hp + 1, last)
    ensures ThreeParts(cmp, u, p, first, lp, hp, last)
  {
    forall k | first <= k < last
      ensures k < lp ==> Compare(cmp, u[k], p) < 0
      ensures lp <= k <= hp ==> Compare(cmp, u[k], p) == 0
      ensures hp < k ==> Compare(cmp, u[k], p) > 0
    {
      if lo <= k < hi {
        var k' := RearrangedElement(t, u, lo, hi, k);
      } else {
        RearrangedOutside(t, u, lo, hi, k);
      }
    }
  }

  /** Rearranging the unsettled part keeps what is settled. */
  lemma SettledKept<T(!new)>(cmp: (T, T) -> int, s: seq<T>, u: seq<T>, lo: int, first: int, last: int, hi: int)
    requires Settled(cmp, s, lo, first, last, hi) && Rearranged(s, u, first, last)
    ensures Settled(cmp, u, lo, first, last, hi)
  {
    forall i, j | lo <= i <= j < hi && (i < first || last <= j)
      ensures Compare(cmp, u[i], u[j]) <= 0
    {
      var i', j' := i, j;
      if first <= i < last {
        i' := RearrangedElement(s, u, first, last, i);
      } else {
        RearrangedOutside(s, u, first, last, i);
      }
      if first <= j < last {
        j' := RearrangedElement(s, u, first, last, j);
      } else {
        RearrangedOutside(s, u, first, last, j);
      }
      assert Compare(cmp, s[i'], s[j']) <= 0;
    }
  }

  /** Once one side of the partition is sorted, only the other side is left. */
  lemma SideSettled<T(!new)>(cmp: (T, T) -> int, u: seq<T>, p: T, lo: int, first: int, lp: int, hp: int, last: int,
                             hi: int, right: bool)
    requires TotalPreorder(cmp)
    requires Settled(cmp, u, lo, first, last, hi) && ThreeParts(cmp, u, p, first, lp, hp, last)
    requires if right then Sorted(cmp, u[hp + 1..last]) else Sorted(cmp, u[first..lp])
    ensures if right then Settled(cmp, u, lo, first, lp, hi) else Settled(cmp, u, lo, hp + 1, last, hi)
  {
    var first', last' := if right then first else hp + 1, if right then lp else last;
    forall i, j | lo <= i <= j < hi && (i < first' || last' <= j)
      ensures Compare(cmp, u[i], u[j]) <= 0
    {
      if first <= i && j < last {
        if right && hp < i {
          assert u[i] == u[hp + 1..last][i - hp - 1] && u[j] == u[hp + 1..last][j - hp - 1];
        } else if !right && j < lp {
          assert u[i] == u[first..lp][i - first] && u[j] == u[first..lp][j - first];
        } else {
          assert Opposed(cmp, p, u[j]) && Opposed(cmp, u[j], p);
          assert Chained(cmp, u[i], p, u[j]);
        }
      }
    }
  }

  lemma SettledStart<T>(cmp: (T, T) -> int, s: seq<T>, lo: int, hi: int)
    requires 0 <= lo <= hi <= |s|
    ensures Settled(cmp, s, lo, lo, hi, hi)
  {
  }

  lemma SettledDone<T(!new)>(cmp: (T, T) -> int, s: seq<T>, lo: int, first: int, last: int, hi: int)
    requires TotalPreorder(cmp) && Settled(cmp, s, lo, first, last, hi) && last - first <= 1
    ensures Sorted(cmp, s[lo..hi])
  {
    if first < last { Reflexive(cmp, s[first]); }
  }

  /** What one turn of `qs1` achieves: `s` was partitioned into `t`, and sorting one side gave `u`. */
  lemma TurnDone<T(!new)>(cmp: (T, T) -> int, s0: seq<T>, s: seq<T>, t: seq<T>, u: seq<T>, p: T,
                          lo: int, first: int, lp: int, hp: int, last: int, hi: int, right: bool)
    requires TotalPreorder(cmp)
    requires Settled(cmp, s, lo, first, last, hi) && Rearranged(s0, s, lo, hi)
    requires Rearranged(s, t, first, last) && ThreeParts(cmp, t, p, first, lp, hp, last)
    requires if right then Rearranged(t, u, hp + 1, last) && Sorted(cmp, u[hp + 1..last])
             else Rearranged(t, u, first, lp) && Sorted(cmp, u[first..lp])
    ensures if right then Settled(cmp, u, lo, first, lp, hi) else Settled(cmp, u, lo, hp + 1, last, hi)
    ensures Rearranged(s0, u, lo, hi)
  {
    hide Rearranged, Sorted;
    assert 0 <= lo <= first <= lp <= hp < last <= hi <= |s|;
    var from, to := if right then hp + 1 else first, if right then last else lp;
    RearrangedLength(s, t, first, last);
    ThreePartsKept(cmp, t, u, p, first, lp, hp, last, from, to);
    RearrangedWiden(t, u, from, to, first, last);
    RearrangedTrans(s, t, u, first, last);
    SettledKept(cmp, s, u, lo, first, last, hi);
    RearrangedWiden(s, u, first, last, lo, hi);
    RearrangedTrans(s0, s, u, lo, hi);
    SideSettled(cmp, u, p, lo, first, lp, hp, last, hi, right);
  }

  /** qs1: sorts `[lo, hi)` in place.  `depth` is the deepest nesting of calls below this one; it is at most
      the logarithm of the number of elements, because the recursion is on the smaller side. */
  method Qs1<T(!new)>(cmp: (T, T) -> int, a: array<T>, lo: int, hi: int) returns (ghost depth: nat)
    requires TotalPreorder(cmp) && 0 <= lo <= hi <= a.Length
    modifies a
    ensures Sorted(cmp, a[lo..hi])
    ensures Rearranged(old(a[..]), a[..], lo, hi)
    ensures if hi - lo <= 1 then depth == 0 else Pow2(depth) <= hi - lo
    decreases hi - lo
  {
    hide Rearranged, Settled, ThreeParts, TotalPreorder, Sorted;
    depth := 0;
    var first, last := lo, hi;
    ghost var s0 := a[..];
    SettledStart(cmp, s0, lo, hi);
    RearrangedRefl(s0, lo, hi);
    while last - first > 1
      invariant lo <= first <= last <= hi
      invariant Settled(cmp, a[..], lo, first, last, hi)
      invariant Rearranged(s0, a[..], lo, hi)
      invariant if hi - lo <= 1 then depth == 0 else Pow2(depth) <= hi - lo
      decreases last - first
    {
      ghost var s := a[..];
      ghost var d: nat;
      var lp, hp, p := Partition(cmp, a, first, last);
      ghost var t := a[..];
      if lp - first >= last - hp {
        d := Qs1(cmp, a, hp + 1, last);
        TurnDone(cmp, s0, s, t, a[..], p, lo, first, lp, hp, last, hi, true);
        last := lp;
      } else {
        d := Qs1(cmp, a, first, lp);
        TurnDone(cmp, s0, s, t, a[..], p, lo, first, lp, hp, last, hi, false);
        first := hp + 1;
      }
      if d + 1 > depth { depth := d + 1; }
    }
    SettledDone(cmp, a[..], lo, first, last, hi);
    assert a[..][lo..hi] == a[lo..hi];
  }

  /** qsort: the whole array is sorted, a permutation of what it was, with logarithmic nesting. */
  method Sort<T(!new)>(cmp: (T, T) -> int, a: array<T>) returns (ghost depth: nat)
    requires TotalPreorder(cmp)
    modifies a
    ensures Sorted(cmp, a[..])
    ensures multiset(a[..]) == multiset(old(a[..]))
    ensures a.Length > 1 ==> Pow2(depth) <= a.Length
  {
    depth := Qs1(cmp, a, 0, a.Length);
    RearrangedMultiset(old(a[..]), a[..], 0, a.Length);
    assert a[0..a.Length] == a[..] && old(a[..])[0..a.Length] == old(a[..]);
  }
}
