// The logit filters of compute/sampler.go over real numbers: exact sums instead of rounded
// ones, and math.Exp and math.Log as parameters.
module Sampling {
  import opened Sorting

  datatype Logit = NegInf | Fin(v: real)

  predicate Less(a: Logit, b: Logit) {
    b.Fin? && (a.NegInf? || a.v < b.v)
  }

  function Prob(exp: real -> real, x: Logit): real {
    if x.NegInf? then 0.0 else exp(x.v)
  }

  // ---------------------------------------------------------------------------
  // Orders

  function At(row: seq<Logit>, i: nat): Logit {
    if i < |row| then row[i] else NegInf
  }

  // Ascending by logit, stable.
  predicate Asc(row: seq<Logit>, i: nat, j: nat) {
    Less(At(row, i), At(row, j)) || (At(row, i) == At(row, j) && i < j)
  }

  // Descending by logit, ties toward the lower index.
  predicate Desc(row: seq<Logit>, i: nat, j: nat) {
    Less(At(row, j), At(row, i)) || (At(row, i) == At(row, j) && i < j)
  }

  function AscOf(row: seq<Logit>): (nat, nat) -> bool {
    (i: nat, j: nat) => Asc(row, i, j)
  }

  function DescOf(row: seq<Logit>): (nat, nat) -> bool {
    (i: nat, j: nat) => Desc(row, i, j)
  }

  lemma OrdersAreTotal(row: seq<Logit>)
    ensures IsTotal(AscOf(row)) && IsTotal(DescOf(row))
  {
  }

  function Indices(n: nat): (s: seq<nat>)
    ensures |s| == n && forall k :: 0 <= k < n ==> s[k] == k
    ensures forall k: nat :: k in s <==> k < n
  {
    if n == 0 then [] else Indices(n - 1) + [n - 1]
  }

  // sort.SliceStable of the indices below n.
  function StableOrder(before: (nat, nat) -> bool, n: nat): (order: seq<nat>)
    ensures |order| == n
    ensures forall k: nat :: k in order <==> k < n
    ensures forall k :: 0 <= k < |order| ==> order[k] < n
  {
    var order := Sort(before, Indices(n));
    assert forall k :: 0 <= k < |order| ==> order[k] in order;
    order
  }

  lemma StableOrderSorted(before: (nat, nat) -> bool, n: nat)
    requires IsTotal(before)
    ensures Sorted(before, StableOrder(before, n))
  {
    SortSorts(before, Indices(n));
  }

  // The indices that come before i.
  function Ahead(before: (nat, nat) -> bool, n: nat, i: nat): set<nat> {
    set j: nat | j < n && before(j, i)
  }

  function FirstOf(order: seq<nat>, k: nat): set<nat>
    requires k <= |order|
  {
    set j | j in order[..k]
  }

  // In the sorted order, the k indices ahead of the one at k are the first k.
  lemma AheadIsFirst(before: (nat, nat) -> bool, n: nat, k: nat)
    requires IsTotal(before) && k < n
    ensures Ahead(before, n, StableOrder(before, n)[k]) == FirstOf(StableOrder(before, n), k)
  {
    var order := StableOrder(before, n);
    StableOrderSorted(before, n);
    hide StableOrder, IsTotal;
    assert forall a :: 0 <= a < n ==> order[a] in order;
    forall j: nat | j < n
      ensures before(j, order[k]) <==> j in order[..k]
    {
      assert j in order;
      var a :| 0 <= a < n && order[a] == j;
      if a < k {
        assert order[..k][a] == j;
      } else {
        AtOrAfter(before, order, n, k, a);
      }
    }
  }

  lemma AtOrAfter(before: (nat, nat) -> bool, order: seq<nat>, n: nat, k: nat, a: nat)
    requires IsTotal(before) && Sorted(before, order) && k <= a < |order|
    requires forall i :: 0 <= i < |order| ==> order[i] < n
    ensures !before(order[a], order[k])
    ensures order[a] !in order[..k]
  {
    forall b | 0 <= b < k
      ensures order[b] != order[a]
    {
      assert before(order[b], order[a]);
    }
  }

  lemma NextOfOrder(before: (nat, nat) -> bool, n: nat, k: nat)
    requires IsTotal(before) && k < n
    ensures var order := StableOrder(before, n);
            order[k] !in FirstOf(order, k) && FirstOf(order, k + 1) == FirstOf(order, k) + {order[k]}
  {
    var order := StableOrder(before, n);
    StableOrderSorted(before, n);
    hide StableOrder, IsTotal;
    AtOrAfter(before, order, n, k, k);
    assert order[..k + 1] == order[..k] + [order[k]];
  }

  lemma {:induction false} FirstOfSize(before: (nat, nat) -> bool, n: nat, k: nat)
    requires IsTotal(before) && k <= n
    ensures |FirstOf(StableOrder(before, n), k)| == k
  {
    hide StableOrder, IsTotal;
    if k > 0 {
      FirstOfSize(before, n, k - 1);
      NextOfOrder(before, n, k - 1);
    }
  }

  // ---------------------------------------------------------------------------
  // Mass

  // The sum of p over the indices of s below n.
  function Mass(p: seq<real>, s: set<nat>, n: nat): real
    requires n <= |p|
  {
    if n == 0 then 0.0 else Mass(p, s, n - 1) + (if n - 1 in s then p[n - 1] else 0.0)
  }

  lemma {:induction false} MassJoin(p: seq<real>, s: set<nat>, t: set<nat>, n: nat)
    requires n <= |p| && s !! t
    ensures Mass(p, s + t, n) == Mass(p, s, n) + Mass(p, t, n)
  {
    if n > 0 {
      MassJoin(p, s, t, n - 1);
    }
  }

  lemma {:induction false} MassOne(p: seq<real>, i: nat, n: nat)
    requires n <= |p|
    ensures Mass(p, {i}, n) == if i < n then p[i] else 0.0
  {
    if n > 0 {
      MassOne(p, i, n - 1);
    }
  }

  lemma {:induction false} MassNonNegative(p: seq<real>, s: set<nat>, n: nat)
    requires n <= |p| && forall i :: 0 <= i < |p| ==> p[i] >= 0.0
    ensures Mass(p, s, n) >= 0.0
  {
    if n > 0 {
      MassNonNegative(p, s, n - 1);
    }
  }

  lemma MassAdd(p: seq<real>, s: set<nat>, i: nat)
    requires i < |p| && i !in s
    ensures Mass(p, s + {i}, |p|) == Mass(p, s, |p|) + p[i]
  {
    MassJoin(p, s, {i}, |p|);
    MassOne(p, i, |p|);
  }

  lemma {:induction false} MassEmpty(p: seq<real>, n: nat)
    requires n <= |p|
    ensures Mass(p, {}, n) == 0.0
  {
    if n > 0 {
      MassEmpty(p, n - 1);
    }
  }

  // ---------------------------------------------------------------------------
  // Top-p

  function Probs(exp: real -> real, row: seq<Logit>): (p: seq<real>)
    ensures |p| == |row|
  {
    seq(|row|, i requires 0 <= i < |row| => Prob(exp, row[i]))
  }

  // The mass of everything ranked at or below i.
  function Cumulative(exp: real -> real, row: seq<Logit>, i: nat): real
    requires i < |row|
  {
    Mass(Probs(exp, row), Ahead(AscOf(row), |row|, i) + {i}, |row|)
  }

  predicate KeptByTopP(exp: real -> real, row: seq<Logit>, topP: real, i: nat)
    requires i < |row|
  {
    Cumulative(exp, row, i) > 1.0 - topP
  }

  function TopP(exp: real -> real, row: seq<Logit>, topP: real): (r: seq<Logit>)
    ensures |r| == |row|
  {
    seq(|row|, i requires 0 <= i < |row| => if KeptByTopP(exp, row, topP, i) then row[i] else NegInf)
  }

  method ApplyTopP(logits: array<Logit>, topP: real, exp: real -> real)
    modifies logits
    ensures logits[..] == TopP(exp, old(logits[..]), topP)
  {
    hide Cumulative;
    var n := logits.Length;
    ghost var row := logits[..];
    var cumAtPos := SweepCumulative(logits, exp);
    var threshold := 1.0 - topP;
    for i := 0 to n
      invariant forall j :: 0 <= j < n ==> cumAtPos[j] == Cumulative(exp, row, j)
      invariant forall j :: 0 <= j < i ==> logits[j] == TopP(exp, row, topP)[j]
      invariant forall j :: i <= j < n ==> logits[j] == row[j]
    {
      if !(cumAtPos[i] > threshold) {
        logits[i] := NegInf;
      }
    }
  }

  // The ascending sweep that gives every position its cumulative mass.
  method SweepCumulative(logits: array<Logit>, exp: real -> real) returns (cumAtPos: array<real>)
    ensures fresh(cumAtPos) && cumAtPos.Length == logits.Length
    ensures forall i :: 0 <= i < logits.Length ==> cumAtPos[i] == Cumulative(exp, logits[..], i)
  {
    hide StableOrder, Asc, Prob;
    var n := logits.Length;
    var row := logits[..];
    var probs := Probs(exp, row);
    var order := StableOrder(AscOf(row), n);
    OrdersAreTotal(row);
    cumAtPos := new real[n];
    var run := 0.0;
    MassEmpty(probs, n);
    assert FirstOf(order, 0) == {};
    for k := 0 to n
      invariant run == Mass(probs, FirstOf(order, k), n)
      invariant forall a :: 0 <= a < k ==> cumAtPos[order[a]] == Cumulative(exp, row, order[a])
    {
      assert order[k] in order;
      SweepStep(exp, row, k);
      run := run + probs[order[k]];
      cumAtPos[order[k]] := run;
    }
    forall i | 0 <= i < n
      ensures cumAtPos[i] == Cumulative(exp, row, i)
    {
      assert i in order;
    }
  }

  lemma SweepStep(exp: real -> real, row: seq<Logit>, k: nat)
    requires k < |row|
    ensures var order := StableOrder(AscOf(row), |row|);
            && FirstOf(order, k + 1) == FirstOf(order, k) + {order[k]}
            && Cumulative(exp, row, order[k]) == Mass(Probs(exp, row), FirstOf(order, k) + {order[k]}, |row|)
            && Cumulative(exp, row, order[k]) == Mass(Probs(exp, row), FirstOf(order, k), |row|) + Probs(exp, row)[order[k]]
  {
    var order := StableOrder(AscOf(row), |row|);
    OrdersAreTotal(row);
    NextOfOrder(AscOf(row), |row|, k);
    AheadIsFirst(AscOf(row), |row|, k);
    MassAdd(Probs(exp, row), FirstOf(order, k), order[k]);
  }

  predicate InRow(i: nat, n: nat) {
    i < n
  }

  function All(n: nat): set<nat> {
    set i: nat | i < n && InRow(i, n)
  }

  function Nucleus(exp: real -> real, row: seq<Logit>, topP: real): set<nat> {
    set i: nat | i < |row| && KeptByTopP(exp, row, topP, i)
  }

  // What is asked of exp, and of a normalised row.
  ghost predicate IsExp(exp: real -> real) {
    (forall x :: exp(x) > 0.0) && forall x, y :: x < y ==> exp(x) < exp(y)
  }

  ghost predicate Normalised(exp: real -> real, row: seq<Logit>) {
    Mass(Probs(exp, row), All(|row|), |row|) == 1.0
  }

  // The cumulative mass of the index ranked k, and how it grows.
  lemma CumulativeAt(exp: real -> real, row: seq<Logit>, k: nat)
    requires k < |row|
    ensures Cumulative(exp, row, StableOrder(AscOf(row), |row|)[k])
         == Mass(Probs(exp, row), FirstOf(StableOrder(AscOf(row), |row|), k + 1), |row|)
  {
    SweepStep(exp, row, k);
  }

  lemma {:induction false} CumulativeGrows(exp: real -> real, row: seq<Logit>, k: nat, m: nat)
    requires IsExp(exp) && k <= m < |row|
    ensures Cumulative(exp, row, StableOrder(AscOf(row), |row|)[k])
         <= Cumulative(exp, row, StableOrder(AscOf(row), |row|)[m])
  {
    hide Cumulative, StableOrder, Mass;
    if k < m {
      CumulativeGrows(exp, row, k, m - 1);
      CumulativeAt(exp, row, m - 1);
      SweepStep(exp, row, m);
    }
  }

  // The first rank, from k on, that top-p keeps.
  function FirstKept(exp: real -> real, row: seq<Logit>, topP: real, k: nat): (m: nat)
    requires k <= |row|
    ensures k <= m <= |row|
    ensures m < |row| ==> KeptByTopP(exp, row, topP, StableOrder(AscOf(row), |row|)[m])
    ensures forall r :: k <= r < m ==> !KeptByTopP(exp, row, topP, StableOrder(AscOf(row), |row|)[r])
    decreases |row| - k
  {
    if k == |row| || KeptByTopP(exp, row, topP, StableOrder(AscOf(row), |row|)[k]) then k
    else FirstKept(exp, row, topP, k + 1)
  }

  // Top-p keeps exactly the ranks from some rank on, and always the highest.
  lemma KeepsTheTopRanks(exp: real -> real, row: seq<Logit>, topP: real, r: nat)
    requires IsExp(exp) && Normalised(exp, row) && topP > 0.0 && r < |row|
    ensures FirstKept(exp, row, topP, 0) < |row|
    ensures KeptByTopP(exp, row, topP, StableOrder(AscOf(row), |row|)[r]) <==> FirstKept(exp, row, topP, 0) <= r
  {
    hide Cumulative, StableOrder, Mass;
    var n, m, order := |row|, FirstKept(exp, row, topP, 0), StableOrder(AscOf(row), |row|);
    CumulativeAt(exp, row, n - 1);
    assert order[..n] == order;
    assert FirstOf(order, n) == All(n);
    assert KeptByTopP(exp, row, topP, order[n - 1]);
    if m <= r {
      CumulativeGrows(exp, row, m, r);
    }
  }

  // The kept indices are those not among the first ranks.
  lemma NucleusIs(exp: real -> real, row: seq<Logit>, topP: real)
    requires IsExp(exp) && Normalised(exp, row) && topP > 0.0 && |row| > 0
    ensures var m, order := FirstKept(exp, row, topP, 0), StableOrder(AscOf(row), |row|);
            Nucleus(exp, row, topP) == All(|row|) - FirstOf(order, m)
  {
    hide KeptByTopP, StableOrder, FirstKept;
    var n, m, order := |row|, FirstKept(exp, row, topP, 0), StableOrder(AscOf(row), |row|);
    OrdersAreTotal(row);
    StableOrderSorted(AscOf(row), n);
    forall i: nat | i < n
      ensures KeptByTopP(exp, row, topP, i) <==> i !in order[..m]
    {
      assert i in order;
      var r: nat :| r < n && order[r] == i;
      KeepsTheTopRanks(exp, row, topP, r);
      if m <= r {
        AtOrAfter(AscOf(row), order, n, m, r);
      } else {
        assert order[..m][r] == i;
      }
    }
  }

  lemma MassSplit(p: seq<real>, s: set<nat>)
    requires s <= All(|p|)
    ensures Mass(p, s, |p|) + Mass(p, All(|p|) - s, |p|) == Mass(p, All(|p|), |p|)
  {
    MassJoin(p, s, All(|p|) - s, |p|);
    assert s + (All(|p|) - s) == All(|p|);
  }

  // The lowest-ranked index that top-p keeps.
  function LowestKept(exp: real -> real, row: seq<Logit>, topP: real): (i: nat)
    requires FirstKept(exp, row, topP, 0) < |row|
    ensures i < |row|
  {
    StableOrder(AscOf(row), |row|)[FirstKept(exp, row, topP, 0)]
  }

  // The kept mass reaches top_p, and falls short of it without the lowest-ranked token.
  lemma NucleusMass(exp: real -> real, row: seq<Logit>, topP: real)
    requires IsExp(exp) && Normalised(exp, row) && 0.0 < topP < 1.0 && |row| > 0
    ensures FirstKept(exp, row, topP, 0) < |row|
    ensures LowestKept(exp, row, topP) in Nucleus(exp, row, topP)
    ensures Mass(Probs(exp, row), Nucleus(exp, row, topP), |row|) >= topP
    ensures Mass(Probs(exp, row), Nucleus(exp, row, topP) - {LowestKept(exp, row, topP)}, |row|) < topP
  {
    hide StableOrder, Mass, Cumulative;
    var n, m, order, p := |row|, FirstKept(exp, row, topP, 0), StableOrder(AscOf(row), |row|), Probs(exp, row);
    KeepsTheTopRanks(exp, row, topP, n - 1);
    NucleusIs(exp, row, topP);
    var dropped := FirstOf(order, m);
    MassSplit(p, dropped);
    if m > 0 {
      CumulativeAt(exp, row, m - 1);
    } else {
      assert dropped == {};
      MassEmpty(p, n);
    }
    SweepStep(exp, row, m);
    OrdersAreTotal(row);
    NextOfOrder(AscOf(row), n, m);
    MassSplit(p, dropped + {order[m]});
    assert Nucleus(exp, row, topP) - {order[m]} == All(n) - (dropped + {order[m]});
  }

  // Moving mass to tokens at least as likely.
  lemma {:induction false} Exchange(p: seq<real>, less: set<nat>, more: set<nat>)
    requires less <= All(|p|) && more <= All(|p|) && |less| <= |more|
    requires forall i :: 0 <= i < |p| ==> p[i] >= 0.0
    requires forall x, y :: x in less && y in more ==> p[x] <= p[y]
    ensures Mass(p, less, |p|) <= Mass(p, more, |p|)
    decreases |less|
  {
    hide Mass;
    MassNonNegative(p, more, |p|);
    MassEmpty(p, |p|);
    if less != {} {
      var x :| x in less;
      assert more != {};
      var y :| y in more;
      Exchange(p, less - {x}, more - {y});
      MassAdd(p, less - {x}, x);
      MassAdd(p, more - {y}, y);
      assert less - {x} + {x} == less && more - {y} + {y} == more;
    }
  }

  lemma MassOfParts(p: seq<real>, a: set<nat>, b: set<nat>)
    ensures Mass(p, a, |p|) == Mass(p, a * b, |p|) + Mass(p, a - b, |p|)
  {
    MassJoin(p, a * b, a - b, |p|);
    assert a * b + (a - b) == a;
  }

  lemma DifferenceSizes(a: set<nat>, b: set<nat>)
    requires |a| <= |b|
    ensures |a - b| <= |b - a|
  {
    assert a == a * b + (a - b) && b == a * b + (b - a);
    assert |a| == |a * b| + |a - b| && |b| == |a * b| + |b - a|;
  }

  // A set of tokens each at least as likely as all others outweighs any set no larger.
  lemma TopOutweighs(p: seq<real>, other: set<nat>, top: set<nat>)
    requires other <= All(|p|) && top <= All(|p|) && |other| <= |top|
    requires forall i :: 0 <= i < |p| ==> p[i] >= 0.0
    requires forall x, y :: x in All(|p|) - top && y in top ==> p[x] <= p[y]
    ensures Mass(p, other, |p|) <= Mass(p, top, |p|)
  {
    hide Mass, All;
    MassOfParts(p, other, top);
    MassOfParts(p, top, other);
    assert other * top == top * other;
    DifferenceSizes(other, top);
    Exchange(p, other - top, top - other);
  }

  // No smaller set of tokens has that much mass.
  lemma NucleusIsSmallest(exp: real -> real, row: seq<Logit>, topP: real, other: set<nat>)
    requires IsExp(exp) && Normalised(exp, row) && 0.0 < topP < 1.0 && |row| > 0
    requires other <= All(|row|) && Mass(Probs(exp, row), other, |row|) >= topP
    ensures |Nucleus(exp, row, topP)| <= |other|
  {
    NucleusMass(exp, row, topP);
    RanksAbove(exp, row, topP);
    assert forall i :: 0 <= i < |row| ==> Probs(exp, row)[i] >= 0.0;
    hide Mass, FirstKept, Nucleus, LowestKept, Probs;
    var kept := Nucleus(exp, row, topP) - {LowestKept(exp, row, topP)};
    if |other| <= |kept| {
      TopOutweighs(Probs(exp, row), other, kept);
      assert false;
    }
  }

  lemma RankAtLeast(order: seq<nat>, k: nat, y: nat) returns (b: nat)
    requires k <= |order| && y in order && y !in order[..k]
    ensures k <= b < |order| && order[b] == y
  {
    assert order == order[..k] + order[k..];
    var c: nat :| c < |order[k..]| && order[k..][c] == y;
    b := k + c;
  }

  lemma FirstComeBefore(before: (nat, nat) -> bool, n: nat, k: nat, x: nat, y: nat)
    requires IsTotal(before) && k <= n && y < n
    requires x in FirstOf(StableOrder(before, n), k) && y !in FirstOf(StableOrder(before, n), k)
    ensures before(x, y)
  {
    var order := StableOrder(before, n);
    StableOrderSorted(before, n);
    hide StableOrder, IsTotal;
    assert y in order;
    var a :| 0 <= a < k && order[..k][a] == x;
    var b := RankAtLeast(order, k, y);
    assert before(order[a], order[b]);
  }

  // The kept tokens but the lowest are at least as likely as all others.
  lemma RanksAbove(exp: real -> real, row: seq<Logit>, topP: real)
    requires IsExp(exp) && Normalised(exp, row) && 0.0 < topP < 1.0 && |row| > 0
    ensures FirstKept(exp, row, topP, 0) < |row|
    ensures var kept := Nucleus(exp, row, topP) - {LowestKept(exp, row, topP)};
            kept <= All(|row|)
            && forall x, y :: x in All(|row|) - kept && y in kept ==> Probs(exp, row)[x] <= Probs(exp, row)[y]
  {
    var n, m, order := |row|, FirstKept(exp, row, topP, 0), StableOrder(AscOf(row), |row|);
    KeepsTheTopRanks(exp, row, topP, n - 1);
    NucleusIs(exp, row, topP);
    OrdersAreTotal(row);
    NextOfOrder(AscOf(row), n, m);
    hide StableOrder, Nucleus, FirstKept, KeptByTopP, IsTotal;
    var kept := Nucleus(exp, row, topP) - {LowestKept(exp, row, topP)};
    assert kept == All(n) - FirstOf(order, m + 1);
    forall x, y | x in All(n) - kept && y in kept
      ensures Probs(exp, row)[x] <= Probs(exp, row)[y]
    {
      FirstComeBefore(AscOf(row), n, m + 1, x, y);
    }
  }

  // ---------------------------------------------------------------------------
  // Argmax

  predicate IsTop(row: seq<Logit>, t: nat) {
    t < |row| && forall j :: 0 <= j < |row| ==> !Less(row[t], row[j])
  }

  // The first index of the highest logit.
  function FirstTop(row: seq<Logit>): (t: int)
    ensures row == [] <==> t == -1
    ensures row != [] ==> 0 <= t && IsTop(row, t) && forall j :: 0 <= j < t ==> Less(row[j], row[t])
  {
    if row == [] then -1
    else
      var n := |row| - 1;
      var t := FirstTop(row[..n]);
      if t == -1 || Less(row[t], row[n]) then n else t
  }

  method Argmax(logits: array<Logit>) returns (best: int)
    ensures best == FirstTop(logits[..])
  {
    best := -1;
    var bestVal := NegInf;
    for i := 0 to logits.Length
      invariant best == FirstTop(logits[..i])
      invariant best >= 0 ==> bestVal == logits[best]
    {
      assert logits[..i + 1][..i] == logits[..i];
      if best == -1 || Less(bestVal, logits[i]) {
        best, bestVal := i, logits[i];
      }
    }
    assert logits[..logits.Length] == logits[..];
  }

  // ---------------------------------------------------------------------------
  // Top-k

  // The k highest logits: those with fewer than k ahead of them.
  predicate InTop(row: seq<Logit>, k: int, i: nat) {
    i < |row| && |Ahead(DescOf(row), |row|, i)| < k
  }

  function Clamp(k: int, n: nat): nat {
    if k > n then n else if k < 0 then 0 else k
  }

  method TopIndices(logits: array<Logit>, k: int) returns (indices: seq<nat>)
    requires k >= 0
    ensures |indices| == Clamp(k, logits.Length)
    ensures forall a :: 0 <= a < |indices| ==> indices[a] < logits.Length
    ensures forall i: nat :: i in indices <==> InTop(logits[..], k, i)
  {
    hide StableOrder, InTop;
    var n := logits.Length;
    var count := if k > n then n else k;
    var order := StableOrder(DescOf(logits[..]), n);
    forall i: nat
      ensures i in order[..count] <==> InTop(logits[..], k, i)
    {
      FirstAreTop(logits[..], k, i);
    }
    return order[..count];
  }

  lemma FirstAreTop(row: seq<Logit>, k: int, i: nat)
    requires k >= 0
    ensures i in StableOrder(DescOf(row), |row|)[..Clamp(k, |row|)] <==> InTop(row, k, i)
  {
    var n, order := |row|, StableOrder(DescOf(row), |row|);
    OrdersAreTotal(row);
    StableOrderSorted(DescOf(row), n);
    hide StableOrder, IsTotal, DescOf;
    if i < n {
      assert i in order;
      var r: nat :| r < n && order[r] == i;
      AheadIsFirst(DescOf(row), n, r);
      FirstOfSize(DescOf(row), n, r);
      if r < Clamp(k, n) {
        assert order[..Clamp(k, n)][r] == i;
      } else {
        AtOrAfter(DescOf(row), order, n, Clamp(k, n), r);
      }
    }
    assert i in order[..Clamp(k, n)] ==> i in order;
  }

  // At most k logits are in the top k, exactly k of a longer row.
  lemma TopSize(row: seq<Logit>, k: int)
    requires k >= 0
    ensures |set i: nat | i < |row| && InTop(row, k, i)| == Clamp(k, |row|)
  {
    OrdersAreTotal(row);
    FirstOfSize(DescOf(row), |row|, Clamp(k, |row|));
    hide StableOrder, InTop;
    var order := StableOrder(DescOf(row), |row|);
    forall i: nat
      ensures i in FirstOf(order, Clamp(k, |row|)) <==> i < |row| && InTop(row, k, i)
    {
      FirstAreTop(row, k, i);
      assert i in FirstOf(order, Clamp(k, |row|)) ==> i in order;
    }
    assert (set i: nat | i < |row| && InTop(row, k, i)) == FirstOf(order, Clamp(k, |row|));
  }

  function TopK(row: seq<Logit>, topK: int): (r: seq<Logit>)
    ensures |r| == |row|
  {
    if topK <= 0 || topK >= |row| then row
    else seq(|row|, i requires 0 <= i < |row| => if InTop(row, topK, i) then row[i] else NegInf)
  }

  method ApplyTopK(logits: array<Logit>, topK: int)
    modifies logits
    ensures logits[..] == TopK(old(logits[..]), topK)
  {
    hide InTop;
    var n := logits.Length;
    if n == 0 || topK <= 0 || topK >= n {
      return;
    }
    ghost var row := logits[..];
    var top := TopIndices(logits, topK);
    var keep := new bool[n](i => false);
    for a := 0 to |top|
      invariant forall i :: 0 <= i < n ==> (keep[i] <==> i in top[..a])
      invariant logits[..] == row
    {
      assert top[..a + 1] == top[..a] + [top[a]];
      keep[top[a]] := true;
    }
    assert top[..|top|] == top;
    for i := 0 to n
      invariant forall j :: 0 <= j < n ==> (keep[j] <==> InTop(row, topK, j))
      invariant forall j :: 0 <= j < i ==> logits[j] == TopK(row, topK)[j]
      invariant forall j :: i <= j < n ==> logits[j] == row[j]
    {
      if !keep[i] {
        logits[i] := NegInf;
      }
    }
  }

  // ---------------------------------------------------------------------------
  // Min-p

  function Shift(x: Logit, delta: real): Logit {
    if x.NegInf? then NegInf else Fin(x.v + delta)
  }

  predicate DroppedByMinP(row: seq<Logit>, logMinP: real, minTokensToKeep: int, i: nat)
    requires i < |row|
  {
    Less(row[i], Shift(row[FirstTop(row)], logMinP)) && !(minTokensToKeep > 1 && InTop(row, minTokensToKeep, i))
  }

  function MinP(log: real -> real, row: seq<Logit>, minP: real, minTokensToKeep: int): (r: seq<Logit>)
    ensures |r| == |row|
  {
    if row == [] || !(0.0 < minP <= 1.0) then row
    else
      seq(|row|, i requires 0 <= i < |row| =>
        if DroppedByMinP(row, log(minP), minTokensToKeep, i) then NegInf else row[i])
  }

  method ApplyMinP(logits: array<Logit>, minP: real, minTokensToKeep: int, log: real -> real)
    modifies logits
    ensures logits[..] == MinP(log, old(logits[..]), minP, minTokensToKeep)
  {
    hide InTop, Less, FirstTop, Shift;
    var n := logits.Length;
    if n == 0 || !(0.0 < minP <= 1.0) {
      return;
    }
    ghost var row := logits[..];
    var remove := MinPRemovals(logits, log(minP), minTokensToKeep);
    for i := 0 to n
      invariant forall j :: 0 <= j < n ==> (remove[j] <==> DroppedByMinP(row, log(minP), minTokensToKeep, j))
      invariant forall j :: 0 <= j < i ==> logits[j] == MinP(log, row, minP, minTokensToKeep)[j]
      invariant forall j :: i <= j < n ==> logits[j] == row[j]
    {
      if remove[i] {
        logits[i] := NegInf;
      }
    }
  }

  // The marks of the tokens to drop.
  method MinPRemovals(logits: array<Logit>, logMinP: real, minTokensToKeep: int) returns (remove: array<bool>)
    requires logits.Length > 0
    ensures fresh(remove) && remove.Length == logits.Length
    ensures forall i :: 0 <= i < logits.Length ==>
              (remove[i] <==> DroppedByMinP(logits[..], logMinP, minTokensToKeep, i))
  {
    hide InTop, Less, Shift;
    var n := logits.Length;
    ghost var row := logits[..];
    var best := Argmax(logits);
    var scaled := Shift(logits[best], logMinP);
    remove := new bool[n](i => false);
    for i := 0 to n
      invariant logits[..] == row
      invariant forall j :: 0 <= j < i ==> (remove[j] <==> Less(row[j], scaled))
    {
      remove[i] := Less(logits[i], scaled);
    }
    if minTokensToKeep > 1 {
      var top := TopIndices(logits, minTokensToKeep);
      for a := 0 to |top|
        invariant logits[..] == row
        invariant forall j :: 0 <= j < n ==> (remove[j] <==> Less(row[j], scaled) && j !in top[..a])
      {
        assert top[..a + 1] == top[..a] + [top[a]];
        remove[top[a]] := false;
      }
      assert top[..|top|] == top;
    }
  }

  ghost predicate IsMultiplicative(exp: real -> real) {
    forall x, y :: exp(x + y) == exp(x) * exp(y)
  }

  lemma ExpOrder(exp: real -> real, x: real, y: real)
    requires IsExp(exp)
    ensures x < y <==> exp(x) < exp(y)
    ensures exp(x) > 0.0
  {
    assert x < y || y < x || x == y;
  }

  lemma ExpShift(exp: real -> real, x: real, y: real, factor: real)
    requires IsMultiplicative(exp) && exp(y) == factor
    ensures exp(x + y) == exp(x) * factor
  {
  }

  lemma ShiftedBelow(exp: real -> real, x: Logit, top: Logit, logMinP: real, minP: real)
    requires IsExp(exp) && IsMultiplicative(exp) && exp(logMinP) == minP && !Less(top, x)
    ensures Less(x, Shift(top, logMinP)) <==> Prob(exp, x) < Prob(exp, top) * minP
  {
    hide IsExp, IsMultiplicative;
    if top.Fin? {
      ExpShift(exp, top.v, logMinP, minP);
      ExpOrder(exp, top.v + logMinP, 0.0);
      if x.Fin? {
        ExpOrder(exp, x.v, top.v + logMinP);
      }
    }
  }

  // What the source compares in logits is a comparison of probabilities: below min_p times
  // the largest one.
  lemma MinPIsARatio(exp: real -> real, log: real -> real, row: seq<Logit>, minP: real, i: nat)
    requires IsExp(exp) && IsMultiplicative(exp) && exp(log(minP)) == minP
    requires 0.0 < minP <= 1.0 && i < |row|
    ensures Less(row[i], Shift(row[FirstTop(row)], log(minP)))
       <==> Prob(exp, row[i]) < Prob(exp, row[FirstTop(row)]) * minP
  {
    hide IsExp, IsMultiplicative, Prob, Shift, FirstTop, Less;
    assert IsTop(row, FirstTop(row));
    ShiftedBelow(exp, row[i], row[FirstTop(row)], log(minP), minP);
  }

  // ---------------------------------------------------------------------------
  // The cascade

  datatype Sampler = Sampler(temp: real, topP: real, minP: real, topK: int, minTokensToKeep: int)

  function Filtered(s: Sampler, exp: real -> real, log: real -> real, row: seq<Logit>): (r: seq<Logit>)
    ensures |r| == |row|
  {
    if s.temp == 0.0 then row
    else
      var a := if 0.0 < s.topP < 1.0 then TopP(exp, row, s.topP) else row;
      var b := if s.minP != 0.0 then MinP(log, a, s.minP, s.minTokensToKeep) else a;
      if 0 < s.topK < |row| then TopK(b, s.topK) else b
  }

  method ApplyFilters(s: Sampler, logits: array<Logit>, exp: real -> real, log: real -> real)
    modifies logits
    ensures logits[..] == Filtered(s, exp, log, old(logits[..]))
  {
    hide TopP, MinP, TopK;
    if s.temp == 0.0 {
      return;
    }
    if s.topP > 0.0 && s.topP < 1.0 {
      ApplyTopP(logits, s.topP, exp);
    }
    if s.minP != 0.0 {
      ApplyMinP(logits, s.minP, s.minTokensToKeep, log);
    }
    if s.topK > 0 && s.topK < logits.Length {
      ApplyTopK(logits, s.topK);
    }
  }

  // r is row with some logits masked: what survives is closed upward in strictly greater
  // logits, and some token of the highest logit survives.
  ghost predicate Filters(row: seq<Logit>, r: seq<Logit>) {
    && |r| == |row|
    && (forall i :: 0 <= i < |row| ==> r[i] == row[i] || r[i] == NegInf)
    && (forall i, j :: 0 <= i < |row| && 0 <= j < |row| && r[i].Fin? && Less(row[i], row[j]) ==> r[j] == row[j])
    && (row != [] ==> exists t: nat :: IsTop(row, t) && r[t] == row[t])
  }

  lemma FiltersSame(row: seq<Logit>)
    ensures Filters(row, row)
  {
    assert row != [] ==> IsTop(row, FirstTop(row));
  }

  lemma FiltersCompose(a: seq<Logit>, b: seq<Logit>, c: seq<Logit>)
    requires Filters(a, b) && Filters(b, c)
    ensures Filters(a, c)
  {
    if a != [] {
      var t0: nat :| IsTop(a, t0) && b[t0] == a[t0];
      var t: nat :| IsTop(b, t) && c[t] == b[t];
      assert !Less(b[t], b[t0]) && !Less(a[t0], a[t]);
      assert b[t] == a[t];
      forall j | 0 <= j < |a|
        ensures !Less(a[t], a[j])
      {
        assert !Less(a[t0], a[j]);
      }
      assert IsTop(a, t);
    }
  }

  // What is kept by a rule that never drops a token above a kept one.
  lemma UpwardFilters(row: seq<Logit>, r: seq<Logit>, kept: set<nat>)
    requires |r| == |row| && forall i :: 0 <= i < |row| ==> r[i] == if i in kept then row[i] else NegInf
    requires forall i, j :: i in kept && 0 <= j < |row| && i < |row| && Less(row[i], row[j]) ==> j in kept
    requires exists t: nat :: IsTop(row, t) && t in kept
    ensures Filters(row, r)
  {
    var t: nat :| IsTop(row, t) && t in kept;
    assert r[t] == row[t];
  }

  lemma TopPFilters(exp: real -> real, row: seq<Logit>, topP: real)
    requires IsExp(exp) && Normalised(exp, row) && 0.0 < topP < 1.0
    ensures Filters(row, TopP(exp, row, topP))
  {
    if row != [] {
      NucleusIs(exp, row, topP);
      KeepsTheTopRanks(exp, row, topP, |row| - 1);
      OrdersAreTotal(row);
      hide KeptByTopP, StableOrder, FirstKept, IsTotal;
      var n, m, order := |row|, FirstKept(exp, row, topP, 0), StableOrder(AscOf(row), |row|);
      var kept := Nucleus(exp, row, topP);
      forall i, j | i in kept && 0 <= j < n && Less(row[i], row[j])
        ensures j in kept
      {
        if j in FirstOf(order, m) {
          FirstComeBefore(AscOf(row), n, m, j, i);
          assert false;
        }
      }
      HighestIsTop(row);
      assert IsTop(row, order[n - 1]) && order[n - 1] in kept;
      UpwardFilters(row, TopP(exp, row, topP), kept);
    } else {
      FiltersSame(row);
    }
  }

  lemma HighestIsTop(row: seq<Logit>)
    requires row != []
    ensures IsTop(row, StableOrder(AscOf(row), |row|)[|row| - 1])
  {
    var n, order := |row|, StableOrder(AscOf(row), |row|);
    OrdersAreTotal(row);
    StableOrderSorted(AscOf(row), n);
    hide StableOrder, IsTotal;
    forall j | 0 <= j < n
      ensures !Less(row[order[n - 1]], row[j])
    {
      assert j in order;
      var r :| 0 <= r < n && order[r] == j;
      assert r < n - 1 ==> AscOf(row)(order[r], order[n - 1]);
    }
  }

  lemma InTopUp(row: seq<Logit>, k: int, i: nat, j: nat)
    requires i < |row| && j < |row| && InTop(row, k, i) && Less(row[i], row[j])
    ensures InTop(row, k, j)
  {
    Subset(Ahead(DescOf(row), |row|, j), Ahead(DescOf(row), |row|, i));
  }

  lemma Subset(a: set<nat>, b: set<nat>)
    requires a <= b
    ensures |a| <= |b|
  {
    assert b == a + (b - a);
  }

  // The first of the highest logits has nothing ahead of it.
  lemma FirstTopInTop(row: seq<Logit>, k: int)
    requires row != [] && k > 0
    ensures InTop(row, k, FirstTop(row))
  {
    hide FirstTop;
    var t := FirstTop(row);
    forall j: nat | j < |row|
      ensures !Desc(row, j, t)
    {
      assert !Less(row[t], row[j]);
    }
    assert Ahead(DescOf(row), |row|, t) == {};
  }

  lemma MinPFilters(log: real -> real, row: seq<Logit>, minP: real, minTokensToKeep: int)
    requires 0.0 < minP <= 1.0 ==> log(minP) <= 0.0
    ensures Filters(row, MinP(log, row, minP, minTokensToKeep))
  {
    if row == [] || !(0.0 < minP <= 1.0) {
      FiltersSame(row);
    } else {
      hide InTop, FirstTop;
      var kept := set i: nat | i < |row| && !DroppedByMinP(row, log(minP), minTokensToKeep, i);
      forall i, j | i in kept && 0 <= j < |row| && Less(row[i], row[j])
        ensures j in kept
      {
        if minTokensToKeep > 1 && InTop(row, minTokensToKeep, i) {
          InTopUp(row, minTokensToKeep, i, j);
        }
      }
      assert IsTop(row, FirstTop(row)) && FirstTop(row) in kept;
      UpwardFilters(row, MinP(log, row, minP, minTokensToKeep), kept);
    }
  }

  lemma TopKFilters(row: seq<Logit>, topK: int)
    ensures Filters(row, TopK(row, topK))
    ensures 0 < topK < |row| ==> |Survivors(TopK(row, topK))| <= topK
  {
    if topK <= 0 || topK >= |row| {
      FiltersSame(row);
    } else {
      hide InTop, FirstTop;
      var kept := set i: nat | i < |row| && InTop(row, topK, i);
      forall i, j | i in kept && 0 <= j < |row| && Less(row[i], row[j])
        ensures j in kept
      {
        InTopUp(row, topK, i, j);
      }
      FirstTopInTop(row, topK);
      assert IsTop(row, FirstTop(row)) && FirstTop(row) in kept;
      UpwardFilters(row, TopK(row, topK), kept);
      TopSize(row, topK);
      Subset(Survivors(TopK(row, topK)), kept);
    }
  }

  function Survivors(row: seq<Logit>): set<nat> {
    set i: nat | i < |row| && row[i].Fin?
  }

  // The whole cascade, for every row of normalised probabilities and every setting.
  lemma CascadeKeepsTheTop(s: Sampler, exp: real -> real, log: real -> real, row: seq<Logit>)
    requires IsExp(exp) && Normalised(exp, row) && (0.0 < s.minP <= 1.0 ==> log(s.minP) <= 0.0)
    ensures Filters(row, Filtered(s, exp, log, row))
    ensures s.temp != 0.0 && 0 < s.topK < |row| ==> |Survivors(Filtered(s, exp, log, row))| <= s.topK
  {
    FiltersSame(row);
    if s.temp != 0.0 {
      hide Filters, TopP, MinP, TopK, Survivors;
      var a := if 0.0 < s.topP < 1.0 then TopP(exp, row, s.topP) else row;
      if 0.0 < s.topP < 1.0 {
        TopPFilters(exp, row, s.topP);
      }
      var b := if s.minP != 0.0 then MinP(log, a, s.minP, s.minTokensToKeep) else a;
      if s.minP != 0.0 {
        MinPFilters(log, a, s.minP, s.minTokensToKeep);
        FiltersCompose(row, a, b);
      }
      if 0 < s.topK < |row| {
        TopKFilters(b, s.topK);
        FiltersCompose(row, b, TopK(b, s.topK));
      }
    }
  }

  // ---------------------------------------------------------------------------
  // Exactly which tokens survive

  // r is row with everything outside `kept` masked.
  ghost predicate Masks(row: seq<Logit>, r: seq<Logit>, kept: set<nat>) {
    |r| == |row| && forall i: nat :: i < |row| ==> r[i] == if i in kept then row[i] else NegInf
  }

  // At least minP times as likely as the likeliest, or guaranteed.
  function LikelyEnough(exp: real -> real, row: seq<Logit>, minP: real, guaranteed: int): set<nat> {
    set i: nat | i < |row| && (IsLikely(exp, row, minP, i) || IsGuaranteed(row, guaranteed, i))
  }

  predicate IsLikely(exp: real -> real, row: seq<Logit>, minP: real, i: nat)
    requires i < |row|
  {
    forall j :: 0 <= j < |row| ==> Prob(exp, row[i]) >= Scaled(Prob(exp, row[j]), minP)
  }

  function Scaled(x: real, factor: real): real {
    x * factor
  }

  predicate IsGuaranteed(row: seq<Logit>, guaranteed: int, i: nat) {
    guaranteed > 1 && InTop(row, guaranteed, i)
  }

  function Highest(row: seq<Logit>, k: int): set<nat> {
    set i: nat | i < |row| && InTop(row, k, i)
  }

  // The three filters one after the other, each when it is enabled.
  ghost predicate IsCascade(
      s: Sampler, exp: real -> real, row: seq<Logit>, a: seq<Logit>, b: seq<Logit>, r: seq<Logit>) {
    && (if 0.0 < s.topP < 1.0 then Masks(row, a, Nucleus(exp, row, s.topP)) else a == row)
    && (if 0.0 < s.minP <= 1.0 then Masks(a, b, LikelyEnough(exp, a, s.minP, s.minTokensToKeep)) else b == a)
    && (if 0 < s.topK < |row| then Masks(b, r, Highest(b, s.topK)) else r == b)
  }

  // For a sampler that is not greedy the result is the cascade; a greedy one changes nothing.
  lemma CascadeIsExact(s: Sampler, exp: real -> real, log: real -> real, row: seq<Logit>)
    requires IsExp(exp) && IsMultiplicative(exp) && (0.0 < s.minP <= 1.0 ==> exp(log(s.minP)) == s.minP)
    ensures s.temp == 0.0 ==> Filtered(s, exp, log, row) == row
    ensures s.temp != 0.0 ==> exists a, b :: IsCascade(s, exp, row, a, b, Filtered(s, exp, log, row))
  {
    hide KeptByTopP, InTop, IsExp, IsMultiplicative;
    if s.temp != 0.0 {
      var a := if 0.0 < s.topP < 1.0 then TopP(exp, row, s.topP) else row;
      var b := if s.minP != 0.0 then MinP(log, a, s.minP, s.minTokensToKeep) else a;
      if 0.0 < s.minP <= 1.0 {
        MinPIsExact(exp, log, a, s.minP, s.minTokensToKeep);
      }
      NoMinP(log, a, s.minP, s.minTokensToKeep);
      hide MinP, LikelyEnough;
      assert IsCascade(s, exp, row, a, b, Filtered(s, exp, log, row));
    }
  }

  lemma NoMinP(log: real -> real, row: seq<Logit>, minP: real, minTokensToKeep: int)
    ensures !(0.0 < minP <= 1.0) ==> MinP(log, row, minP, minTokensToKeep) == row
  {
  }

  lemma MinPIsExact(exp: real -> real, log: real -> real, row: seq<Logit>, minP: real, guaranteed: int)
    requires IsExp(exp) && IsMultiplicative(exp) && exp(log(minP)) == minP && 0.0 < minP <= 1.0
    ensures Masks(row, MinP(log, row, minP, guaranteed), LikelyEnough(exp, row, minP, guaranteed))
  {
    hide InTop, IsExp, IsMultiplicative, Shift, Less, Prob, IsLikely, FirstTop, Scaled;
    forall i: nat | i < |row|
      ensures IsLikely(exp, row, minP, i) <==> !Less(row[i], Shift(row[FirstTop(row)], log(minP)))
    {
      MinPIsARatio(exp, log, row, minP, i);
      LikelyIff(exp, row, minP, i);
      ScaledIs(Prob(exp, row[FirstTop(row)]), minP);
    }
  }

  // Enough to compare with the likeliest.
  lemma LikelyIff(exp: real -> real, row: seq<Logit>, minP: real, i: nat)
    requires IsExp(exp) && 0.0 < minP <= 1.0 && i < |row|
    ensures IsLikely(exp, row, minP, i) <==> Prob(exp, row[i]) >= Scaled(Prob(exp, row[FirstTop(row)]), minP)
  {
    hide Prob, Scaled, IsExp, FirstTop;
    var t := FirstTop(row);
    forall j | 0 <= j < |row|
      ensures Scaled(Prob(exp, row[j]), minP) <= Scaled(Prob(exp, row[t]), minP)
    {
      TopIsLikeliest(exp, row, j);
      ScaledOrder(Prob(exp, row[j]), Prob(exp, row[t]), minP);
    }
  }

  lemma TopIsLikeliest(exp: real -> real, row: seq<Logit>, j: nat)
    requires IsExp(exp) && j < |row|
    ensures Prob(exp, row[j]) <= Prob(exp, row[FirstTop(row)])
  {
    assert !Less(row[FirstTop(row)], row[j]);
  }

  lemma ScaledIs(x: real, factor: real)
    ensures Scaled(x, factor) == x * factor
  {
  }

  lemma ScaledOrder(x: real, y: real, factor: real)
    requires x <= y && 0.0 < factor
    ensures Scaled(x, factor) <= Scaled(y, factor)
  {
  }

  lemma {:induction false} MassZero(p: seq<real>, s: set<nat>, n: nat)
    requires n <= |p| && forall i :: 0 <= i < n && i in s ==> p[i] == 0.0
    ensures Mass(p, s, n) == 0.0
  {
    if n > 0 {
      MassZero(p, s, n - 1);
    }
  }

  // A masked token is in no nucleus.
  lemma NucleusIsFinite(exp: real -> real, row: seq<Logit>, topP: real, i: nat)
    requires topP < 1.0 && i in Nucleus(exp, row, topP)
    ensures i < |row| && row[i].Fin?
  {
    if row[i].NegInf? {
      MassZero(Probs(exp, row), Ahead(AscOf(row), |row|, i) + {i}, |row|);
    }
  }

  // With top-p enabled nothing outside the nucleus survives, and alone it leaves exactly the
  // nucleus.
  lemma SurvivorsAreNuclear(s: Sampler, exp: real -> real, log: real -> real, row: seq<Logit>)
    requires IsExp(exp) && IsMultiplicative(exp) && (0.0 < s.minP <= 1.0 ==> exp(log(s.minP)) == s.minP)
    requires s.temp != 0.0 && 0.0 < s.topP < 1.0
    ensures Survivors(Filtered(s, exp, log, row)) <= Nucleus(exp, row, s.topP)
    ensures s.minP == 0.0 && s.topK == 0 ==> Survivors(Filtered(s, exp, log, row)) == Nucleus(exp, row, s.topP)
  {
    hide Nucleus, LikelyEnough, Highest, Filtered, IsExp, IsMultiplicative;
    CascadeIsExact(s, exp, log, row);
    var r := Filtered(s, exp, log, row);
    var a: seq<Logit>, b: seq<Logit> :| IsCascade(s, exp, row, a, b, r);
    assert |a| == |row| && |b| == |row|;
    forall i: nat | i in Nucleus(exp, row, s.topP)
      ensures i < |row| && row[i].Fin?
    {
      NucleusIsFinite(exp, row, s.topP, i);
    }
    assert forall i: nat :: i < |row| && r[i].Fin? ==> b[i].Fin? && a[i].Fin?;
  }

  // With top-k enabled exactly that many survive, or all that the filters ahead of it left.
  lemma TopKSurvivors(row: seq<Logit>, r: seq<Logit>, k: int)
    requires 0 < k && Masks(row, r, Highest(row, k))
    ensures |Survivors(r)| == if k <= |Survivors(row)| then k else |Survivors(row)|
  {
    hide InTop;
    TopSize(row, k);
    if k <= |Survivors(row)| {
      forall i: nat | i in Highest(row, k)
        ensures row[i].Fin?
      {
        if row[i].NegInf? {
          MaskedComesLast(row, k, i);
        }
      }
      assert Survivors(r) == Highest(row, k);
      Subset(Survivors(row), All(|row|));
      AllSize(|row|);
    } else {
      forall i: nat | i in Survivors(row)
        ensures i in Highest(row, k)
      {
        FiniteComesFirst(row, k, i);
      }
      assert Survivors(r) == Survivors(row);
    }
  }

  lemma {:induction false} AllSize(n: nat)
    ensures |All(n)| == n
  {
    if n > 0 {
      AllSize(n - 1);
      assert All(n) == All(n - 1) + {n - 1};
    } else {
      assert All(0) == {};
    }
  }

  lemma MaskedComesLast(row: seq<Logit>, k: int, i: nat)
    requires i < |row| && row[i].NegInf? && k <= |Survivors(row)|
    ensures !InTop(row, k, i)
  {
    Subset(Survivors(row), Ahead(DescOf(row), |row|, i));
  }

  lemma FiniteComesFirst(row: seq<Logit>, k: int, i: nat)
    requires i in Survivors(row) && |Survivors(row)| < k
    ensures InTop(row, k, i)
  {
    Subset(Ahead(DescOf(row), |row|, i), Survivors(row));
  }

  // Of equal logits top-p keeps the later, top-k the earlier ones.
  lemma TiesInTheNucleus(exp: real -> real, row: seq<Logit>, topP: real, i: nat, j: nat)
    requires IsExp(exp) && Normalised(exp, row) && topP > 0.0
    requires i < j < |row| && row[i] == row[j] && i in Nucleus(exp, row, topP)
    ensures j in Nucleus(exp, row, topP)
  {
    NucleusIs(exp, row, topP);
    OrdersAreTotal(row);
    hide StableOrder, Nucleus, FirstKept, IsTotal;
    var m, order := FirstKept(exp, row, topP, 0), StableOrder(AscOf(row), |row|);
    if j in FirstOf(order, m) {
      FirstComeBefore(AscOf(row), |row|, m, j, i);
      assert false;
    }
  }

  lemma TiesInTheTop(row: seq<Logit>, k: int, i: nat, j: nat)
    requires i < j < |row| && row[i] == row[j] && InTop(row, k, j)
    ensures InTop(row, k, i)
  {
    Subset(Ahead(DescOf(row), |row|, i), Ahead(DescOf(row), |row|, j));
  }
}
