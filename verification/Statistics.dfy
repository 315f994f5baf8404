/**
  * The exact statistics of evals/src/ab-stats.ts, over real arithmetic.
  */
module Statistics {
  import opened Common

  // ----- binomial coefficients -----

  /** Pascal's triangle. */
  function C(n: nat, k: nat): nat {
    if k == 0 then 1 else if n == 0 then 0 else C(n - 1, k - 1) + C(n - 1, k)
  }

  function Pow2(n: nat): (r: nat)
    ensures r >= 1
  {
    if n == 0 then 1 else 2 * Pow2(n - 1)
  }

  /** The sum of C(n, i) over lo <= i < hi. */
  function SumC(n: nat, lo: nat, hi: nat): nat
    decreases hi - lo
  {
    if lo >= hi then 0 else SumC(n, lo, hi - 1) + C(n, hi - 1)
  }

  lemma {:induction false} CAboveIsZero(n: nat, k: nat)
    requires k > n
    ensures C(n, k) == 0
  {
    if n > 0 {
      CAboveIsZero(n - 1, k - 1);
      CAboveIsZero(n - 1, k);
    }
  }

  lemma {:induction false} CDiagonal(n: nat)
    ensures C(n, n) == 1
  {
    if n > 0 {
      CDiagonal(n - 1);
      CAboveIsZero(n - 1, n);
    }
  }

  lemma {:induction false} CSymmetric(n: nat, k: nat)
    requires k <= n
    ensures C(n, k) == C(n, n - k)
  {
    if k == 0 {
      CDiagonal(n);
    } else if k == n {
      CDiagonal(n);
    } else {
      CSymmetric(n - 1, k - 1);
      CSymmetric(n - 1, k);
    }
  }

  /** i * C(m, i) == m * C(m - 1, i - 1). */
  lemma {:induction false} Absorption(m: nat, i: nat)
    requires m >= 1 && i >= 1
    ensures i * C(m, i) == m * C(m - 1, i - 1)
    decreases m
  {
    if i == 1 {
      COne(m);
    } else if m == 1 {
      CAboveIsZero(1, i);
      CAboveIsZero(0, i - 1);
    } else {
      Absorption(m - 1, i);
      Absorption(m - 1, i - 1);
      AbsorptionAlgebra(m, i, C(m - 1, i - 1), C(m - 1, i), C(m - 2, i - 2), C(m - 2, i - 1));
    }
  }

  lemma {:induction false} COne(m: nat)
    ensures C(m, 1) == m
  {
    if m > 0 { COne(m - 1); }
  }

  lemma AbsorptionAlgebra(m: int, i: int, a: int, b: int, c: int, d: int)
    requires a == c + d && i * b == (m - 1) * d && (i - 1) * a == (m - 1) * c
    ensures i * (a + b) == m * a
  {
  }

  /** `binomial`: in exact arithmetic the running product is an integer at every turn, and ends at C(n, k). */
  method Binomial(n: nat, k: nat) returns (result: real)
    ensures result == C(n, k) as real
  {
    hide C;
    CBase(n - Min(n, k));
    result := 1.0;
    for i := 1 to k + 1
      invariant k <= n ==> result == C(n - k + i - 1, i - 1) as real
      invariant k > n && i > k - n ==> result == 0.0
    {
      if k <= n {
        BinomialTurn(n - k + i, i, result);
      } else if i == k - n {
        assert n - k + i == 0;
      }
      result := (result * (n - k + i) as real) / i as real;
    }
    if k > n { CAboveIsZero(n, k); }
  }

  lemma CBase(m: nat)
    ensures C(m, 0) == 1
  {
  }

  lemma BinomialTurn(m: nat, i: nat, result: real)
    requires m >= 1 && i >= 1 && result == C(m - 1, i - 1) as real
    ensures (result * m as real) / i as real == C(m, i) as real
  {
    hide C;
    Absorption(m, i);
    var x, y := C(m, i), C(m - 1, i - 1);
    assert (y * m) as real == y as real * m as real;
    assert (i * x) as real == i as real * x as real;
  }

  // ----- rows and tails -----

  lemma {:induction false} SumSplit(n: nat, lo: nat, mid: nat, hi: nat)
    requires lo <= mid <= hi
    ensures SumC(n, lo, hi) == SumC(n, lo, mid) + SumC(n, mid, hi)
    decreases hi
  {
    if mid < hi { SumSplit(n, lo, mid, hi - 1); }
  }

  lemma {:induction false} SumPascal(n: nat, j: nat)
    requires n >= 1
    ensures SumC(n, 0, j + 1) == SumC(n - 1, 0, j + 1) + SumC(n - 1, 0, j)
  {
    if j > 0 { SumPascal(n, j - 1); }
  }

  lemma {:induction false} RowSum(n: nat)
    ensures SumC(n, 0, n + 1) == Pow2(n)
  {
    if n > 0 {
      RowSum(n - 1);
      SumPascal(n, n);
      CAboveIsZero(n - 1, n);
    }
  }

  /** The lower tail up to k and the upper tail from n - k weigh the same. */
  lemma {:induction false} TailsMirror(n: nat, k: nat)
    requires k <= n
    ensures SumC(n, 0, k + 1) == SumC(n, n - k, n + 1)
  {
    CSymmetric(n, k);
    SumSplit(n, n - k, n - k + 1, n + 1);
    if k > 0 { TailsMirror(n, k - 1); }
  }

  function Abs(x: int): nat {
    if x < 0 then -x else x
  }

  /** Weight of the outcomes i < hi of n fair coin flips at least d away from balance: |2i - n| >= d. */
  function Extreme(n: nat, d: nat, hi: nat): nat {
    if hi == 0 then 0 else Extreme(n, d, hi - 1) + if Abs(2 * (hi - 1) - n) >= d then C(n, hi - 1) else 0
  }

  /** The two-sided exact p-value: the probability, under Binomial(b + c, 1/2), of a split at least as uneven. */
  function PValue(b: nat, c: nat): real {
    Extreme(b + c, Abs(b - c), b + c + 1) as real / Pow2(b + c) as real
  }

  lemma {:induction false} ExtremeIsTails(n: nat, k: nat, hi: nat)
    requires 2 * k <= n && hi <= n + 1
    ensures Extreme(n, n - 2 * k, hi) == SumC(n, 0, Min(hi, k + 1)) + SumC(n, Max(k + 1, n - k), hi)
    decreases hi
  {
    if hi > 0 {
      ExtremeIsTails(n, k, hi - 1);
    }
  }

  lemma TailWeights(n: nat, k: nat)
    requires 2 * k < n
    ensures Extreme(n, n - 2 * k, n + 1) == SumC(n, 0, k + 1) + SumC(n, n - k, n + 1)
    ensures SumC(n, n - k, n + 1) == SumC(n, 0, k + 1) && 2 * SumC(n, 0, k + 1) <= Pow2(n)
  {
    hide C, SumC, Extreme, Pow2;
    ExtremeIsTails(n, k, n + 1);
    TailsMirror(n, k);
    RowSum(n);
    SumSplit(n, 0, k + 1, n + 1);
    SumSplit(n, k + 1, n - k, n + 1);
  }

  /** For an uneven split the p-value is the sum of both tails, which is twice the lower one. */
  lemma PValueIsBothTails(b: nat, c: nat)
    requires b != c
    ensures var n, k := b + c, Min(b, c);
      && PValue(b, c) == (SumC(n, 0, k + 1) + SumC(n, n - k, n + 1)) as real / Pow2(n) as real
      && SumC(n, n - k, n + 1) == SumC(n, 0, k + 1) && 2 * SumC(n, 0, k + 1) <= Pow2(n)
  {
    hide C, SumC, Extreme, Pow2;
    TailWeights(b + c, Min(b, c));
    assert Abs(b - c) == b + c - 2 * Min(b, c);
  }

  lemma EvenWeights(b: nat)
    ensures Extreme(2 * b, 0, 2 * b + 1) == Pow2(2 * b) <= 2 * SumC(2 * b, 0, b + 1)
  {
    hide C, SumC, Extreme, Pow2;
    ExtremeIsTails(2 * b, b, 2 * b + 1);
    RowSum(2 * b);
    SumSplit(2 * b, 0, b + 1, 2 * b + 1);
    TailsMirror(2 * b, b);
    SumSplit(2 * b, b, b + 1, 2 * b + 1);
  }

  lemma PValueOfEvenSplit(b: nat)
    ensures PValue(b, b) == 1.0 && 2 * SumC(2 * b, 0, b + 1) >= Pow2(2 * b)
  {
    hide C, SumC, Extreme, Pow2;
    EvenWeights(b);
    assert Abs(b - b) == 0 && b + b == 2 * b;
    RatioBound(Pow2(2 * b), Pow2(2 * b));
  }

  /** `mcnemarExact` is the two-sided exact test, clamp and empty sample included. */
  method McnemarExact(b: nat, c: nat) returns (p: real)
    ensures p == PValue(b, c)
  {
    hide C, SumC, Extreme;
    var n := b + c;
    if n == 0 {
      PValueOfEvenSplit(0);
      return 1.0;
    }
    var k := Min(b, c);
    var tail := 0.0;
    SumNothing(n);
    for i := 0 to k + 1
      invariant tail == SumC(n, 0, i) as real
    {
      var term := Binomial(n, i);
      SumNext(n, i);
      tail := tail + term;
    }
    var ratio := (2.0 * tail) / Pow2(n) as real;
    p := if ratio < 1.0 then ratio else 1.0;
    if b == c {
      PValueOfEvenSplit(b);
      RatioBound(2 * SumC(n, 0, k + 1), Pow2(n));
    } else {
      PValueIsBothTails(b, c);
      RatioBound(2 * SumC(n, 0, k + 1), Pow2(n));
    }
  }

  lemma SumNothing(n: nat)
    ensures SumC(n, 0, 0) == 0
  {
  }

  lemma SumNext(n: nat, i: nat)
    ensures SumC(n, 0, i + 1) == SumC(n, 0, i) + C(n, i)
  {
  }

  lemma RatioBound(x: nat, y: nat)
    requires y >= 1
    ensures x <= y ==> x as real / y as real <= 1.0
    ensures x >= y ==> x as real / y as real >= 1.0
    ensures x >= 1 ==> x as real / y as real > 0.0
  {
  }

  lemma {:induction false} ExtremeBounds(n: nat, d: nat, e: nat, hi: nat)
    requires d <= e
    ensures Extreme(n, e, hi) <= Extreme(n, d, hi) <= SumC(n, 0, hi)
    decreases hi
  {
    if hi > 0 { ExtremeBounds(n, d, e, hi - 1); }
  }

  /** A p-value lies in (0, 1] and does not care which arm is which. */
  lemma PValueInUnitInterval(b: nat, c: nat)
    ensures 0.0 < PValue(b, c) <= 1.0 && PValue(b, c) == PValue(c, b)
  {
    var n, d := b + c, Abs(b - c);
    RowSum(n);
    ExtremeBounds(n, d, d, n + 1);
    CDiagonal(n);
    assert Extreme(n, d, n + 1) >= C(n, n);
    RatioBound(Extreme(n, d, n + 1), Pow2(n));
  }

  /** More uneven splits of the same pairs never look less significant. */
  lemma PValueAntitone(b: nat, c: nat, b': nat, c': nat)
    requires b + c == b' + c' && Abs(b - c) <= Abs(b' - c')
    ensures PValue(b', c') <= PValue(b, c)
  {
    var n := b + c;
    ExtremeBounds(n, Abs(b - c), Abs(b' - c'), n + 1);
    QuotientMonotone(Extreme(n, Abs(b' - c'), n + 1) as real, Extreme(n, Abs(b - c), n + 1) as real, Pow2(n) as real);
  }

  lemma QuotientMonotone(x: real, y: real, z: real)
    requires x <= y && z > 0.0
    ensures x / z <= y / z
  {
  }

  // ----- Holm's step-down adjustment -----

  /** order lists every index of p once, by ascending p-value. */
  ghost predicate IsOrder(p: seq<real>, order: seq<nat>) {
    && |order| == |p|
    && (forall r :: 0 <= r < |order| ==> order[r] < |p|)
    && (forall r, s :: 0 <= r < s < |order| ==> order[r] != order[s])
    && (forall r, s :: 0 <= r < s < |order| ==> p[order[r]] <= p[order[s]])
  }

  function MinReal(x: real, y: real): real {
    if x <= y then x else y
  }

  function MaxReal(x: real, y: real): real {
    if x <= y then y else x
  }

  /** The p-values by rank. */
  function Values(p: seq<real>, order: seq<nat>): (v: seq<real>)
    requires forall r :: 0 <= r < |order| ==> order[r] < |p|
    ensures |v| == |order| && forall r :: 0 <= r < |order| ==> v[r] == p[order[r]]
  {
    seq(|order|, r requires 0 <= r < |order| => p[order[r]])
  }

  ghost predicate Ascending(v: seq<real>) {
    forall r, s :: 0 <= r < s < |v| ==> v[r] <= v[s]
  }

  /** The p-value at a rank, times the hypotheses left there, capped at 1. */
  function Scaled(v: seq<real>, r: nat): (x: real)
    requires r < |v|
    ensures x <= 1.0
  {
    MinReal(1.0, v[r] * (|v| - r) as real)
  }

  /** The running maximum after ranks 0..n. */
  function Running(v: seq<real>, n: nat): real
    requires n <= |v|
  {
    if n == 0 then 0.0 else MaxReal(Running(v, n - 1), Scaled(v, n - 1))
  }

  /** Holm's sequential procedure: walk up the ranks, stop at the first p-value above alpha / (hypotheses left);
      the result is how many ranks were rejected. */
  function StepDown(v: seq<real>, alpha: real, r: nat): (n: nat)
    requires r <= |v|
    ensures r <= n <= |v|
    decreases |v| - r
  {
    if r == |v| || v[r] > alpha / (|v| - r) as real then r else StepDown(v, alpha, r + 1)
  }

  lemma {:induction false} RunningGrows(v: seq<real>, m: nat, n: nat)
    requires m <= n <= |v|
    ensures 0.0 <= Running(v, m) <= Running(v, n) <= 1.0
    decreases n
  {
    hide Scaled;
    if m < n {
      RunningGrows(v, m, n - 1);
    } else if n > 0 {
      RunningGrows(v, n - 1, n - 1);
    }
  }

  /** One rank is under the threshold before or after adjustment alike. */
  lemma ScaledThreshold(v: seq<real>, r: nat, alpha: real)
    requires r < |v| && alpha < 1.0
    ensures Scaled(v, r) <= alpha <==> v[r] <= alpha / (|v| - r) as real
  {
  }

  lemma {:induction false} StepDownFrom(v: seq<real>, alpha: real, r: nat, n: nat)
    requires r <= n < |v| && 0.0 <= alpha < 1.0
    requires Running(v, r) <= alpha
    ensures Running(v, n + 1) <= alpha <==> n < StepDown(v, alpha, r)
    decreases |v| - r
  {
    hide Scaled;
    ScaledThreshold(v, r, alpha);
    RunningGrows(v, r + 1, n + 1);
    if Scaled(v, r) <= alpha && r < n {
      StepDownFrom(v, alpha, r + 1, n);
    }
  }

  // ----- any two sorted orders give the same adjustment -----

  function Prefix(order: seq<nat>, n: nat): set<nat>
    requires n <= |order|
  {
    set r | 0 <= r < n :: order[r]
  }

  lemma {:induction false} PrefixSize(order: seq<nat>, n: nat)
    requires n <= |order| && forall r, s :: 0 <= r < s < |order| ==> order[r] != order[s]
    ensures |Prefix(order, n)| == n
  {
    if n > 0 {
      PrefixSize(order, n - 1);
      assert Prefix(order, n) == Prefix(order, n - 1) + {order[n - 1]};
    }
  }

  lemma {:induction false} SubsetSize(A: set<nat>, B: set<nat>)
    requires A <= B
    ensures |A| <= |B|
  {
    if A != {} {
      var x :| x in A;
      SubsetSize(A - {x}, B - {x});
    }
  }

  function UpTo(n: nat): (s: set<nat>)
    ensures |s| == n && forall i: nat :: i in s <==> i < n
  {
    if n == 0 then {} else UpTo(n - 1) + {n - 1}
  }

  /** Every index has a rank. */
  lemma RankOf(p: seq<real>, order: seq<nat>, i: nat) returns (r: nat)
    requires IsOrder(p, order) && i < |p|
    ensures r < |order| && order[r] == i
  {
    if i !in Prefix(order, |order|) {
      PrefixSize(order, |order|);
      SubsetSize(Prefix(order, |order|), UpTo(|p|) - {i});
    }
    r :| 0 <= r < |order| && order[r] == i;
  }

  /** Sorted orders put no larger value at the same rank. */
  lemma SameValueAtRank(p: seq<real>, o1: seq<nat>, o2: seq<nat>, r: nat)
    requires IsOrder(p, o1) && IsOrder(p, o2) && r < |p|
    ensures p[o1[r]] <= p[o2[r]]
  {
    if p[o1[r]] > p[o2[r]] {
      // the r + 1 indices first in o2 would all be among the r indices first in o1
      forall i | i in Prefix(o2, r + 1) ensures i in Prefix(o1, r) {
        var s :| 0 <= s < r + 1 && o2[s] == i;
        var t := RankOf(p, o1, i);
        assert t < r;
      }
      PrefixSize(o1, r);
      PrefixSize(o2, r + 1);
      SubsetSize(Prefix(o2, r + 1), Prefix(o1, r));
    }
  }

  lemma SameValues(p: seq<real>, o1: seq<nat>, o2: seq<nat>)
    requires IsOrder(p, o1) && IsOrder(p, o2)
    ensures Values(p, o1) == Values(p, o2)
  {
    forall r | 0 <= r < |p| ensures p[o1[r]] == p[o2[r]] {
      SameValueAtRank(p, o1, o2, r);
      SameValueAtRank(p, o2, o1, r);
    }
  }

  /** At the next rank a tied value is scaled by less, so the running maximum stays. */
  lemma TieScalesDown(x: real, left: real)
    requires left >= 1.0
    ensures MinReal(1.0, x * left) <= MaxReal(0.0, MinReal(1.0, x * (left + 1.0)))
  {
  }

  lemma ScaledTie(v: seq<real>, r: nat)
    requires r + 1 < |v| && v[r] == v[r + 1]
    ensures Scaled(v, r + 1) <= MaxReal(0.0, Scaled(v, r))
  {
    TieScalesDown(v[r], (|v| - (r + 1)) as real);
  }

  /** Ties get equal results. */
  lemma {:induction false} TiesAgree(v: seq<real>, r: nat, s: nat)
    requires Ascending(v) && r <= s < |v| && v[r] == v[s]
    ensures Running(v, r + 1) == Running(v, s + 1)
    decreases s
  {
    hide Scaled;
    if r < s {
      assert v[r] <= v[s - 1] <= v[s];
      TiesAgree(v, r, s - 1);
      ScaledTie(v, s - 1);
      RunningGrows(v, s - 1, s);
    }
  }

  /** adjusted holds, at every index, the running maximum at that index's rank, in every sorted order. */
  ghost predicate IsHolm(p: seq<real>, adjusted: seq<real>) {
    |adjusted| == |p|
    && forall order, r :: IsOrder(p, order) && 0 <= r < |p| ==> adjusted[order[r]] == Running(Values(p, order), r + 1)
  }

  lemma AnyOrderWillDo(p: seq<real>, order: seq<nat>, adjusted: seq<real>)
    requires IsOrder(p, order) && |adjusted| == |p|
    requires forall r :: 0 <= r < |p| ==> adjusted[order[r]] == Running(Values(p, order), r + 1)
    ensures IsHolm(p, adjusted)
  {
    hide Running;
    forall o, r | IsOrder(p, o) && 0 <= r < |p| ensures adjusted[o[r]] == Running(Values(p, o), r + 1) {
      var s := RankOf(p, order, o[r]);
      SameValues(p, order, o);
      var v := Values(p, order);
      if r <= s { TiesAgree(v, r, s); } else { TiesAgree(v, s, r); }
    }
  }

  // ----- sorting the indices -----

  /** Stable insertion: i goes after every index whose p-value is not greater. */
  function Insert(p: seq<real>, order: seq<nat>, i: nat): (r: seq<nat>)
    requires i < |p| && forall s :: 0 <= s < |order| ==> order[s] < |p|
    decreases |order|
  {
    var n := |order|;
    if n == 0 || p[order[n - 1]] <= p[i] then order + [i] else Insert(p, order[..n - 1], i) + [order[n - 1]]
  }

  ghost predicate SortedDistinct(p: seq<real>, order: seq<nat>) {
    && (forall s :: 0 <= s < |order| ==> order[s] < |p|)
    && (forall r, s :: 0 <= r < s < |order| ==> order[r] != order[s] && p[order[r]] <= p[order[s]])
  }

  lemma {:induction false} InsertSorts(p: seq<real>, order: seq<nat>, i: nat)
    requires i < |p| && SortedDistinct(p, order) && i !in order
    ensures var r := Insert(p, order, i);
      |r| == |order| + 1 && SortedDistinct(p, r) && forall j :: j in r <==> j in order || j == i
    decreases |order|
  {
    var n := |order|;
    if n > 0 && p[order[n - 1]] > p[i] {
      var init := order[..n - 1];
      assert order == init + [order[n - 1]];
      InsertSorts(p, init, i);
      var r := Insert(p, init, i);
      forall s | 0 <= s < |r| ensures r[s] != order[n - 1] && p[r[s]] <= p[order[n - 1]] {
        assert r[s] in r;
        assert r[s] == i || exists t :: 0 <= t < n - 1 && order[t] == r[s];
      }
      LastStaysLast(p, r, order[n - 1]);
      assert Insert(p, order, i) == r + [order[n - 1]];
    } else {
      GoesLast(p, order, i);
    }
  }

  lemma LastStaysLast(p: seq<real>, r: seq<nat>, last: nat)
    requires SortedDistinct(p, r) && last < |p|
    requires forall s :: 0 <= s < |r| ==> r[s] != last && p[r[s]] <= p[last]
    ensures SortedDistinct(p, r + [last])
  {
  }

  lemma GoesLast(p: seq<real>, order: seq<nat>, i: nat)
    requires i < |p| && SortedDistinct(p, order) && i !in order
    requires order != [] ==> p[order[|order| - 1]] <= p[i]
    ensures Insert(p, order, i) == order + [i] && SortedDistinct(p, order + [i])
  {
    LastStaysLast(p, order, i);
  }

  /** The library sort of the (p, index) pairs. */
  method SortByP(p: seq<real>) returns (order: seq<nat>)
    ensures IsOrder(p, order)
  {
    order := [];
    for i := 0 to |p|
      invariant |order| == i && SortedDistinct(p, order) && forall j :: j in order <==> 0 <= j < i
    {
      InsertSorts(p, order, i);
      order := Insert(p, order, i);
    }
  }

  /** `holm`: adjusted p-values in input order. */
  method Holm(p: seq<real>) returns (result: seq<real>)
    ensures IsHolm(p, result)
  {
    hide Running;
    var order := SortByP(p);
    ghost var v := Values(p, order);
    var adjusted := new real[|p|];
    var running := 0.0;
    RunningZero(v);
    for rank := 0 to |p|
      invariant running == Running(v, rank)
      invariant forall r :: 0 <= r < rank ==> adjusted[order[r]] == Running(v, r + 1)
    {
      RunningNext(v, rank);
      running := MaxReal(running, MinReal(1.0, p[order[rank]] * (|p| - rank) as real));
      adjusted[order[rank]] := running;
    }
    result := adjusted[..];
    AnyOrderWillDo(p, order, result);
  }

  lemma RunningZero(v: seq<real>)
    ensures Running(v, 0) == 0.0
  {
  }

  lemma RunningNext(v: seq<real>, n: nat)
    requires n < |v|
    ensures Running(v, n + 1) == MaxReal(Running(v, n), MinReal(1.0, v[n] * (|v| - n) as real))
  {
  }

  // ----- what the adjustment means -----

  /** The sequential procedure at level alpha, walking the sorted order, rejects hypothesis i. */
  ghost predicate Rejected(p: seq<real>, order: seq<nat>, alpha: real, i: nat)
    requires IsOrder(p, order)
  {
    exists r :: 0 <= r < StepDown(Values(p, order), alpha, 0) && order[r] == i
  }

  /** An adjusted value is at most alpha exactly when Holm's procedure at level alpha rejects the hypothesis. */
  lemma AdjustedDecidesStepDown(p: seq<real>, adjusted: seq<real>, order: seq<nat>, alpha: real, i: nat)
    requires IsHolm(p, adjusted) && IsOrder(p, order) && i < |p| && 0.0 <= alpha < 1.0
    ensures adjusted[i] <= alpha <==> Rejected(p, order, alpha, i)
  {
    hide StepDown;
    var r := RankOf(p, order, i);
    var v := Values(p, order);
    StepDownFrom(v, alpha, 0, r);
  }

  /** Below level 0 nothing is rejected, provided the inputs are p-values and so not negative. */
  lemma NegativeLevelRejectsNothing(p: seq<real>, adjusted: seq<real>, order: seq<nat>, alpha: real, i: nat)
    requires IsHolm(p, adjusted) && IsOrder(p, order) && i < |p| && alpha < 0.0
    requires forall j :: 0 <= j < |p| ==> p[j] >= 0.0
    ensures adjusted[i] > alpha && !Rejected(p, order, alpha, i)
  {
    var r := RankOf(p, order, i);
    var v := Values(p, order);
    RunningGrows(v, 0, r + 1);
    assert alpha / |v| as real < 0.0 <= v[0];
  }

  /** Adjusting preserves the order of the p-values, ties included, never lowers one, and stays within [0, 1]. */
  lemma AdjustedKeepsOrder(p: seq<real>, adjusted: seq<real>, order: seq<nat>, i: nat, j: nat)
    requires IsHolm(p, adjusted) && IsOrder(p, order) && i < |p| && j < |p| && p[i] <= p[j]
    ensures adjusted[i] <= adjusted[j] && (p[i] == p[j] ==> adjusted[i] == adjusted[j])
    ensures 0.0 <= adjusted[i] <= 1.0 && (p[i] <= 1.0 ==> p[i] <= adjusted[i])
  {
    hide Running;
    var r := RankOf(p, order, i);
    var s := RankOf(p, order, j);
    var v := Values(p, order);
    RunningGrows(v, r, r + 1);
    if r <= s {
      RunningGrows(v, r + 1, s + 1);
      if p[i] == p[j] { TiesAgree(v, r, s); }
    } else {
      TiesAgree(v, s, r);
    }
    if p[i] <= 1.0 { NeverLowered(v, r); }
  }

  lemma NeverLowered(v: seq<real>, r: nat)
    requires r < |v| && v[r] <= 1.0
    ensures v[r] <= Running(v, r + 1)
  {
    hide Running;
    RunningGrows(v, 0, r);
    RunningZero(v);
    RunningNext(v, r);
    if v[r] >= 0.0 { ScaleUp(v[r], (|v| - r) as real); }
  }

  lemma ScaleUp(x: real, left: real)
    requires x >= 0.0 && left >= 1.0
    ensures x * left >= x
  {
  }

  ghost predicate IsPermutation(pi: seq<nat>) {
    && (forall i :: 0 <= i < |pi| ==> pi[i] < |pi|)
    && (forall i, j :: 0 <= i < j < |pi| ==> pi[i] != pi[j])
  }

  /** Adjusting commutes with permuting the input. */
  lemma AdjustingCommutes(p: seq<real>, q: seq<real>, pi: seq<nat>, a: seq<real>, b: seq<real>, order: seq<nat>)
    requires IsPermutation(pi) && |pi| == |p| == |q| && forall i :: 0 <= i < |q| ==> q[i] == p[pi[i]]
    requires IsHolm(p, a) && IsHolm(q, b) && IsOrder(q, order)
    ensures forall i :: 0 <= i < |q| ==> b[i] == a[pi[i]]
  {
    hide Running;
    var back := seq(|q|, r requires 0 <= r < |q| => pi[order[r]]);
    assert IsOrder(p, back);
    assert Values(p, back) == Values(q, order);
    forall i | 0 <= i < |q| ensures b[i] == a[pi[i]] {
      var r := RankOf(q, order, i);
      assert back[r] == pi[i];
    }
  }
}
