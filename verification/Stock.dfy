// Spreading a stock figure over the variants of a product (apps/afterbuy/sale_actions.py).
// The quotient is exact; the source divides in floating point.
module Stock {

  function Sum(vs: seq<nat>): nat {
    if vs == [] then 0 else Sum(vs[..|vs| - 1]) + vs[|vs| - 1]
  }

  // Python's round() of num / den: to the nearest integer, ties to even.
  function RoundEven(num: nat, den: nat): nat
    requires den > 0
  {
    var q, r := num / den, num % den;
    if 2 * r < den || (2 * r == den && q % 2 == 0) then q else q + 1
  }

  lemma RoundEvenIsNearest(num: nat, den: nat)
    requires den > 0
    ensures 2 * num - den <= 2 * (den * RoundEven(num, den)) <= 2 * num + den
  {
    var q, r := num / den, num % den;
    assert num == den * q + r;
    assert den * (q + 1) == den * q + den;
  }

  // The nearest integer to num / den, the even one on a tie.
  predicate NearestEven(num: nat, den: nat, r: nat) {
    && 2 * num - den <= 2 * (den * r) <= 2 * num + den
    && (2 * (den * r) == 2 * num - den || 2 * (den * r) == 2 * num + den ==> r % 2 == 0)
  }

  lemma TieGoesToEven(num: nat, den: nat)
    requires den > 0
    ensures NearestEven(num, den, RoundEven(num, den))
  {
    var q, r := num / den, num % den;
    assert num == den * q + r;
    assert den * (q + 1) == den * q + den;
  }

  function NonNegative(x: int): nat {
    if x < 0 then 0 else x
  }

  // What the first n variants have been given when the last one is served.
  function Assigned(vs: seq<nat>, q: nat, n: nat): nat
    requires n <= |vs|
  {
    if n == 0 || Sum(vs) == 0 then 0 else Assigned(vs, q, n - 1) + RoundEven(q * vs[n - 1], Sum(vs))
  }

  function NewQuantity(vs: seq<nat>, q: nat, i: nat): nat
    requires i < |vs|
  {
    if i == |vs| - 1 then NonNegative(q - Assigned(vs, q, i))
    else if Sum(vs) == 0 then if i == 0 then q else 0
    else RoundEven(q * vs[i], Sum(vs))
  }

  function NewQuantities(vs: seq<nat>, q: nat): (r: seq<nat>)
    ensures |r| == |vs| && forall i | 0 <= i < |vs| :: r[i] == NewQuantity(vs, q, i)
  {
    seq(|vs|, i requires 0 <= i < |vs| => NewQuantity(vs, q, i))
  }

  method Total(a: array<nat>) returns (total: nat)
    ensures total == Sum(a[..])
  {
    total := 0;
    for i := 0 to a.Length
      invariant total == Sum(a[..i])
    {
      assert a[..i + 1][..i] == a[..i];
      total := total + a[i];
    }
    assert a[..a.Length] == a[..];
  }

  // apply_canonical_qty_to_product, on the quantities of the variants.
  method ApplyCanonicalQty(a: array<nat>, quantity: int)
    modifies a
    ensures a[..] == NewQuantities(old(a[..]), NonNegative(quantity))
  {
    var q := NonNegative(quantity);
    if a.Length == 0 {
      return;
    }
    if a.Length == 1 {
      a[0] := q;
      return;
    }
    ghost var vs := a[..];
    var total := Total(a);
    var given: nat := 0;
    for i := 0 to a.Length
      invariant i < a.Length ==> given == Assigned(vs, q, i)
      invariant forall k | 0 <= k < i :: a[k] == NewQuantity(vs, q, k)
      invariant forall k | i <= k < a.Length :: a[k] == vs[k]
    {
      var newQty: int;
      if i == a.Length - 1 {
        newQty := q - given;
      } else if total == 0 {
        newQty := if i == 0 then q else 0;
      } else {
        newQty := RoundEven(q * a[i], total);
        given := given + newQty;
      }
      a[i] := NonNegative(newQty);
    }
  }

  // What each variant but the last gets: the nearest share of the figure, the even one on a tie.
  // Empty stock goes to the first variant.
  lemma ShareSays(vs: seq<nat>, q: nat, i: nat)
    requires i + 1 < |vs|
    ensures var share, total := NewQuantities(vs, q)[i], Sum(vs);
            if total == 0 then share == if i == 0 then q else 0
            else NearestShare(q, vs[i], total, share)
  {
    if Sum(vs) > 0 {
      RoundedShare(q, vs[i], Sum(vs));
    }
  }

  // The share of v out of the total.
  predicate NearestShare(q: nat, v: nat, total: nat, share: nat) {
    NearestEven(q * v, total, share)
  }

  lemma RoundedShare(q: nat, v: nat, total: nat)
    requires total > 0
    ensures NearestShare(q, v, total, RoundEven(q * v, total))
  {
    TieGoesToEven(q * v, total);
  }

  // The last one gets what is left of the figure, if anything; of empty stock all of it.
  lemma RestSays(vs: seq<nat>, q: nat)
    requires vs != []
    ensures var i := |vs| - 1;
            var before := if Sum(vs) == 0 then 0 else Sum(NewQuantities(vs, q)[..i]);
            NewQuantities(vs, q)[i] == if before <= q then q - before else 0
  {
    if Sum(vs) > 0 {
      SumOfPrefix(NewQuantities(vs, q)[..|vs| - 1], vs, q, |vs| - 1);
    }
  }

  // Five over two equal variants: two and a half goes down to two, and three are left.
  lemma FiveOverTwo()
    ensures NewQuantities([1, 1], 5) == [2, 3]
  {
    var vs: seq<nat> := [1, 1];
    assert vs[..1] == [1] && vs[..1][..0] == [];
    assert Sum([]) == 0 && Sum(vs[..1]) == 1 && Sum(vs) == 2;
    assert RoundEven(5, 2) == 2;
    assert Assigned(vs, 5, 0) == 0 && Assigned(vs, 5, 1) == 2;
    assert NewQuantity(vs, 5, 0) == 2 && NewQuantity(vs, 5, 1) == 3;
  }

  // ---- conservation ----

  lemma {:induction false} SumOfPrefix(xs: seq<nat>, vs: seq<nat>, q: nat, n: nat)
    requires Sum(vs) > 0 && n < |vs| && xs == NewQuantities(vs, q)[..n]
    ensures Sum(xs) == Assigned(vs, q, n)
  {
    if n > 0 {
      assert xs[..n - 1] == NewQuantities(vs, q)[..n - 1];
      SumOfPrefix(xs[..n - 1], vs, q, n - 1);
    }
  }

  // With stock to spread, the new sum is the figure or, if the rounded shares exceed it, theirs.
  lemma NewSum(vs: seq<nat>, q: nat)
    requires Sum(vs) > 0
    ensures Sum(NewQuantities(vs, q)) == if Assigned(vs, q, |vs| - 1) > q then Assigned(vs, q, |vs| - 1) else q
  {
    SumOfPrefix(NewQuantities(vs, q)[..|vs| - 1], vs, q, |vs| - 1);
  }

  lemma {:induction false} PrefixSumIsLess(vs: seq<nat>, n: nat)
    requires n <= |vs|
    ensures Sum(vs[..n]) <= Sum(vs)
    decreases |vs| - n
  {
    if n < |vs| {
      assert vs[..n + 1][..n] == vs[..n];
      PrefixSumIsLess(vs, n + 1);
    } else {
      assert vs[..n] == vs;
    }
  }

  // Each rounding adds at most a half.
  lemma {:induction false} AssignedBound(vs: seq<nat>, q: nat, n: nat)
    requires Sum(vs) > 0 && n <= |vs|
    ensures 2 * (Sum(vs) * Assigned(vs, q, n)) <= 2 * (q * Sum(vs[..n])) + n * Sum(vs)
  {
    var t := Sum(vs);
    if n > 0 {
      AssignedBound(vs, q, n - 1);
      assert vs[..n][..n - 1] == vs[..n - 1];
      var share, before := RoundEven(q * vs[n - 1], t), Assigned(vs, q, n - 1);
      RoundEvenIsNearest(q * vs[n - 1], t);
      BoundStep(t, before, share, q, Sum(vs[..n - 1]), vs[n - 1], n);
    }
  }

  lemma BoundStep(t: nat, before: nat, share: nat, q: nat, s: nat, v: nat, n: nat)
    requires n > 0 && 2 * (t * before) <= 2 * (q * s) + (n - 1) * t && 2 * (t * share) <= 2 * (q * v) + t
    ensures 2 * (t * (before + share)) <= 2 * (q * (s + v)) + n * t
  {
    Distribute(t, before, share);
    Distribute(q, s, v);
    Distribute(t, n - 1, 1);
  }

  lemma Distribute(a: nat, b: nat, c: nat)
    ensures a * (b + c) == a * b + a * c
  {
  }

  lemma StrictScale(t: nat, a: int, b: int)
    requires t > 0 && a > b
    ensures t * a > t * b
  {
    assert t * (a - b) > 0;
  }

  lemma CancelTotal(t: nat, a: nat, q: nat, s: nat, n: nat)
    requires t > 0 && s <= t && 2 * (t * a) <= 2 * (q * s) + n * t
    ensures 2 * a <= 2 * q + n
  {
    assert q * s <= q * t;
    assert t * (2 * a) == 2 * (t * a);
    assert t * (2 * q + n) == 2 * (q * t) + n * t;
    if 2 * a > 2 * q + n {
      StrictScale(t, 2 * a, 2 * q + n);
    }
  }

  // Main result: no stock is lost, and at most one unit for every two variants but the last is
  // invented; with up to two variants the figure is met exactly.
  lemma ConservationBound(vs: seq<nat>, q: nat)
    requires Sum(vs) > 0
    ensures q <= Sum(NewQuantities(vs, q)) <= q + (|vs| - 1) / 2
  {
    var n, t := |vs| - 1, Sum(vs);
    NewSum(vs, q);
    AssignedBound(vs, q, n);
    PrefixSumIsLess(vs, n);
    CancelTotal(t, Assigned(vs, q, n), q, Sum(vs[..n]), n);
  }

  // The figure is met exactly when the rounded shares of all variants but the last leave room.
  lemma ConservedExactly(vs: seq<nat>, q: nat)
    requires Sum(vs) > 0
    ensures Sum(NewQuantities(vs, q)) == q <==> Assigned(vs, q, |vs| - 1) <= q
  {
    NewSum(vs, q);
  }

  // ---- the bound is attained for every number of variants ----

  // 2k variants with one piece each, and the rest empty.
  function Crowded(k: nat, n: nat): (vs: seq<nat>)
    requires 2 * k < n
    ensures |vs| == n && forall i | 0 <= i < n :: vs[i] == if i < 2 * k then 1 else 0
  {
    seq(n, i requires 0 <= i < n => if i < 2 * k then 1 else 0)
  }

  lemma {:induction false} CrowdedSum(k: nat, n: nat, m: nat)
    requires 2 * k < n && m <= n
    ensures Sum(Crowded(k, n)[..m]) == if m < 2 * k then m else 2 * k
  {
    if m > 0 {
      assert Crowded(k, n)[..m][..m - 1] == Crowded(k, n)[..m - 1];
      CrowdedSum(k, n, m - 1);
    }
  }

  lemma HalvesRoundUp(k: nat)
    requires k > 0
    ensures RoundEven(3 * k, 2 * k) == 2 && RoundEven(0, 2 * k) == 0
  {
    assert 3 * k == 1 * (2 * k) + k;
    assert (3 * k) / (2 * k) == 1 && (3 * k) % (2 * k) == k by {
      QuotientOne(3 * k, 2 * k);
    }
  }

  lemma QuotientOne(a: nat, b: nat)
    requires 0 < b <= a < 2 * b
    ensures a / b == 1 && a % b == a - b
  {
  }

  lemma {:induction false} CrowdedAssigned(k: nat, n: nat, m: nat)
    requires 0 < k && 2 * k < n && m <= n
    ensures Sum(Crowded(k, n)) == 2 * k
    ensures Assigned(Crowded(k, n), 3 * k, m) == if m < 2 * k then 2 * m else 4 * k
  {
    CrowdedSum(k, n, n);
    assert Crowded(k, n)[..n] == Crowded(k, n);
    HalvesRoundUp(k);
    if m > 0 {
      CrowdedAssigned(k, n, m - 1);
    }
  }

  lemma BoundIsAttained(n: nat)
    requires n >= 3
    ensures var k := (n - 1) / 2;
            Sum(Crowded(k, n)) > 0 && Sum(NewQuantities(Crowded(k, n), 3 * k)) == 3 * k + (n - 1) / 2
  {
    var k := (n - 1) / 2;
    CrowdedAssigned(k, n, n - 1);
    NewSum(Crowded(k, n), 3 * k);
  }

  // ---- no stock to spread ----

  lemma {:induction false} ZerosSum(xs: seq<nat>, q: nat)
    requires |xs| > 0 && xs[0] == q && forall i | 1 <= i < |xs| :: xs[i] == 0
    ensures Sum(xs) == q
  {
    if |xs| > 1 {
      ZerosSum(xs[..|xs| - 1], q);
    } else {
      assert xs[..0] == [];
    }
  }

  // With all variants empty and at least two of them the first and the last both get the whole
  // figure, because what the first got is not counted as assigned.
  lemma EmptyStockIsDoubled(vs: seq<nat>, q: nat)
    requires Sum(vs) == 0 && |vs| >= 2
    ensures Sum(NewQuantities(vs, q)) == 2 * q
    ensures Sum(NewQuantities(vs, q)) == q <==> q == 0
  {
    ZerosSum(NewQuantities(vs, q)[..|vs| - 1], q);
  }
}
