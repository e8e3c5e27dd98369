/** Attribution of a shared table's bytes to its groups by row count (cmd/storage-monitor/main.go),
    in 64-bit arithmetic. */
module Allocation {

  const WORD := 0x1_0000_0000_0000_0000
  const MAX_INT64 := 0x7fff_ffff_ffff_ffff

  /** The value of an int64 product. */
  function Wrap(x: int): (r: int)
    ensures -MAX_INT64 - 1 <= r <= MAX_INT64
    ensures -MAX_INT64 - 1 <= x <= MAX_INT64 ==> r == x
    ensures r == x - WORD * ((x + MAX_INT64 + 1) / WORD) && (r - x) % WORD == 0
  {
    (x + MAX_INT64 + 1) % WORD - MAX_INT64 - 1
  }

  /** Division truncated toward zero. */
  function Quotient(x: int, d: int): int
    requires 0 < d
  {
    if 0 <= x then x / d else -(-x / d)
  }

  function Product(a: int, b: int): int { a * b }

  function Sum(xs: seq<int>): int {
    if xs == [] then 0 else Sum(xs[..|xs| - 1]) + xs[|xs| - 1]
  }

  /** All products the allocation forms fit in 64 bits. */
  predicate Fits(size: nat, counts: seq<nat>) {
    forall i :: 0 <= i < |counts| - 1 ==> Product(size, counts[i]) <= MAX_INT64
  }

  /** The share `bytes` differs from size * count / total by less than `slack` bytes. */
  predicate Near(bytes: int, size: nat, count: nat, total: nat, slack: nat) {
    -Product(slack, total) < Product(bytes, total) - Product(size, count) < Product(slack, total)
  }

  lemma ShareIsFloor(p: int, total: nat)
    requires 0 < total && 0 <= p <= MAX_INT64
    ensures var b := Quotient(Wrap(p), total);
            0 <= b && Product(b, total) <= p < Product(b, total) + total
  {
    assert p == (p / total) * total + p % total;
  }

  lemma UnitProduct(a: int)
    ensures Product(1, a) == a && Product(0, a) == 0
  {
  }

  /** A share other than the last is within a byte of the exact one if and only if its product fits. */
  lemma ShareIsFairIffItFits(size: nat, count: nat, total: nat)
    requires 0 < total <= MAX_INT64
    ensures Near(Quotient(Wrap(Product(size, count)), total), size, count, total, 1) <==>
      Product(size, count) <= MAX_INT64
  {
    var p := Product(size, count);
    NonNegativeProduct(size, count);
    UnitProduct(total);
    if p <= MAX_INT64 {
      ShareIsFloor(p, total);
    } else {
      TruncationError(Wrap(p), total);
      WrapDrops(p);
    }
  }

  lemma NonNegativeProduct(a: nat, b: nat)
    ensures 0 <= Product(a, b)
  {
  }

  lemma WrapDrops(p: int)
    requires MAX_INT64 < p
    ensures Wrap(p) <= p - WORD
  {
    var y := p + MAX_INT64 + 1;
    assert y == (y / WORD) * WORD + y % WORD;
    assert 1 <= y / WORD;
  }

  lemma TruncationError(w: int, d: int)
    requires 0 < d
    ensures -d < Product(Quotient(w, d), d) - w < d
  {
    if 0 <= w {
      assert w == (w / d) * d + w % d;
    } else {
      assert -w == (-w / d) * d + -w % d;
      assert Product(Quotient(w, d), d) == -((-w / d) * d);
    }
  }

  /** What the first groups have not been given yet of their exact shares, in units of 1 / total. */
  function Lag(size: nat, counts: seq<nat>, i: nat, given: int): int
    requires i <= |counts|
  {
    Product(size, Total(counts[..i])) - Product(given, Total(counts))
  }

  /** The shares but the last, as computed. */
  predicate AreQuotients(size: nat, counts: seq<nat>, shares: seq<int>)
    requires 0 < Total(counts) && |shares| <= |counts|
  {
    forall i :: 0 <= i < |shares| && i < |counts| - 1 ==>
      shares[i] == Quotient(Wrap(Product(size, counts[i])), Total(counts))
  }

  /** Every share but the last is within a byte of its exact value if and only if all products fit. */
  lemma SharesAreFairIffTheyFit(size: nat, counts: seq<nat>, shares: seq<int>)
    requires 0 < Total(counts) <= MAX_INT64 && |shares| == |counts| && AreQuotients(size, counts, shares)
    ensures (forall i :: 0 <= i < |counts| - 1 ==> Near(shares[i], size, counts[i], Total(counts), 1))
      <==> Fits(size, counts)
  {
    forall i | 0 <= i < |counts| - 1
      ensures Near(shares[i], size, counts[i], Total(counts), 1) <==> Product(size, counts[i]) <= MAX_INT64
    {
      ShareIsFairIffItFits(size, counts[i], Total(counts));
    }
  }

  /** The shares add up to the size of the table modulo 2^64, whatever overflows.  Every share but the last is
      within a byte of its exact value if and only if all products fit; then the sum is exact, no share is
      negative, and the last one is within as many bytes of its exact value as there are groups. */
  method SharedAllocations(size: nat, counts: seq<nat>) returns (shares: seq<int>)
    requires size <= MAX_INT64 && Total(counts) <= MAX_INT64
    ensures Total(counts) == 0 ==> shares == []
    ensures Total(counts) > 0 ==> |shares| == |counts| && Congruent(Sum(shares), size)
    ensures Total(counts) > 0 ==>
      (Fits(size, counts) <==>
       forall i :: 0 <= i < |counts| - 1 ==> Near(shares[i], size, counts[i], Total(counts), 1))
    ensures Total(counts) > 0 && Fits(size, counts) ==> Sum(shares) == size
    ensures Total(counts) > 0 && Fits(size, counts) ==>
      forall i :: 0 <= i < |shares| ==> 0 <= shares[i] && Near(shares[i], size, counts[i], Total(counts), |counts|)
  {
    shares := [];
    var total := TotalRows(counts);
    if total > 0 {
      var given := 0;
      NothingGiven(size, counts);
      for i := 0 to |counts|
        invariant |shares| == i && AreQuotients(size, counts, shares) && Congruent(Sum(shares), given)
        invariant i == |counts| ==> Congruent(Sum(shares), size)
        invariant Fair(size, counts, shares, given)
      {
        var bytes := Quotient(Wrap(Product(size, counts[i])), total);
        if i == |counts| - 1 {
          bytes := Wrap(size - given);
        }
        CongruenceStep(shares, given, bytes, size);
        FairStep(size, counts, shares, given, bytes);
        given := Wrap(given + bytes);
        shares := shares + [bytes];
      }
      SharesAreFairIffTheyFit(size, counts, shares);
    }
  }

  predicate Congruent(a: int, b: int) {
    (a - b) % WORD == 0
  }

  /** What the shares given so far satisfy when the products fit. */
  predicate Fair(size: nat, counts: seq<nat>, shares: seq<int>, given: int)
    requires |shares| <= |counts|
  {
    Fits(size, counts) ==>
      && 0 <= given <= size && given == Sum(shares) && (|shares| == |counts| ==> given == size)
      && (|shares| < |counts| ==> 0 <= Lag(size, counts, |shares|, given) <= Product(|shares|, Total(counts)))
      && (forall j :: 0 <= j < |shares| ==> 0 <= shares[j] && Near(shares[j], size, counts[j], Total(counts), |counts|))
  }

  lemma NothingGiven(size: nat, counts: seq<nat>)
    requires 0 < Total(counts)
    ensures Fair(size, counts, [], 0)
  {
    UnitProduct(Total(counts));
    UnitProduct(size);
    assert counts[..0] == [];
    assert Product(size, 0) == 0;
  }

  lemma FairStep(size: nat, counts: seq<nat>, shares: seq<int>, given: int, bytes: int)
    requires size <= MAX_INT64 && 0 < Total(counts) <= MAX_INT64 && |shares| < |counts|
    requires Fair(size, counts, shares, given)
    requires bytes == if |shares| == |counts| - 1 then Wrap(size - given)
                      else Quotient(Wrap(Product(size, counts[|shares|])), Total(counts))
    ensures Fair(size, counts, shares + [bytes], Wrap(given + bytes))
  {
    if Fits(size, counts) {
      StepIsNear(size, counts, |shares|, given, bytes);
      StaysBelow(size, counts, |shares|, given + bytes);
      assert (shares + [bytes])[..|shares|] == shares;
    }
  }

  lemma CongruenceStep(shares: seq<int>, given: int, bytes: int, size: int)
    requires Congruent(Sum(shares), given)
    ensures Congruent(Sum(shares + [bytes]), Wrap(given + bytes))
    ensures bytes == Wrap(size - given) ==> Congruent(Sum(shares + [bytes]), size)
  {
    assert (shares + [bytes])[..|shares|] == shares;
    var k := (Sum(shares) - given) / WORD;
    var m, n := (given + bytes + MAX_INT64 + 1) / WORD, (size - given + MAX_INT64 + 1) / WORD;
    assert Sum(shares) - given == WORD * k;
    assert Sum(shares + [bytes]) - Wrap(given + bytes) == WORD * (k + m);
    if bytes == Wrap(size - given) {
      assert Sum(shares + [bytes]) - size == WORD * (k - n);
    }
  }

  /** The running total is never above the size. */
  lemma StaysBelow(size: nat, counts: seq<nat>, i: nat, given: int)
    requires i < |counts| && 0 < Total(counts)
    requires i < |counts| - 1 ==> 0 <= Lag(size, counts, i + 1, given)
    requires i == |counts| - 1 ==> given == size
    ensures given <= size
  {
    if i < |counts| - 1 && size < given {
      var total := Total(counts);
      TotalOfPrefix(counts, i + 1);
      ProductMonotone(size + 1, given, total);
      ProductSum(total, size, 1);
      UnitProduct(total);
      ProductMonotone(Total(counts[..i + 1]), total, size);
      Commutes(size, total);
      Commutes(size, Total(counts[..i + 1]));
    }
  }

  lemma Commutes(a: int, b: int)
    ensures Product(a, b) == Product(b, a)
  {
  }

  method TotalRows(counts: seq<nat>) returns (total: int)
    requires Total(counts) <= MAX_INT64
    ensures total == Total(counts)
  {
    total := 0;
    for i := 0 to |counts|
      invariant total == Total(counts[..i])
    {
      assert counts[..i + 1][..i] == counts[..i];
      TotalOfPrefix(counts, i + 1);
      total := Wrap(total + counts[i]);
    }
    assert counts[..|counts|] == counts;
  }

  lemma {:induction false} TotalOfPrefix(counts: seq<nat>, i: nat)
    requires i <= |counts|
    ensures Total(counts[..i]) <= Total(counts)
  {
    if i < |counts| {
      TotalOfPrefix(counts[..|counts| - 1], i);
      assert counts[..|counts| - 1][..i] == counts[..i];
    } else {
      assert counts[..i] == counts;
    }
  }

  function Total(counts: seq<nat>): nat {
    if counts == [] then 0 else Total(counts[..|counts| - 1]) + counts[|counts| - 1]
  }

  lemma ProductSum(a: int, b: int, c: int)
    ensures Product(a, b + c) == Product(a, b) + Product(a, c)
    ensures Product(b + c, a) == Product(b, a) + Product(c, a)
  {
  }

  lemma ProductMonotone(a: int, b: int, c: nat)
    requires a <= b
    ensures Product(a, c) <= Product(b, c)
  {
    assert (b - a) * c == b * c - a * c;
    NonNegativeProduct(b - a, c);
  }

  /** What is given so far lags the exact running share by at most a byte per group; the last group
      takes what is left. */
  lemma StepIsNear(size: nat, counts: seq<nat>, i: nat, given: int, bytes: int)
    requires i < |counts| && Fits(size, counts) && 0 < Total(counts)
    requires 0 <= Lag(size, counts, i, given) <= Product(i, Total(counts))
    requires bytes ==
      if i == |counts| - 1 then size - given else Quotient(Wrap(Product(size, counts[i])), Total(counts))
    ensures 0 <= bytes && Near(bytes, size, counts[i], Total(counts), |counts|)
    ensures i < |counts| - 1 ==> 0 <= Lag(size, counts, i + 1, given + bytes) <= Product(i + 1, Total(counts))
  {
    var total := Total(counts);
    assert counts[..i + 1][..i] == counts[..i];
    ProductSum(size, Total(counts[..i]), counts[i]);
    ProductSum(total, given, bytes);
    ProductSum(total, i, 1);
    UnitProduct(total);
    NonNegativeProduct(size, counts[i]);
    if i < |counts| - 1 {
      ShareIsFloor(Product(size, counts[i]), total);
      ProductMonotone(1, |counts|, total);
    } else {
      assert counts[..i + 1] == counts;
      assert Product(size, total) == Product(given + bytes, total);
      ProductMonotone(i + 1, |counts|, total);
      NonNegativeFactor(bytes, total);
    }
  }

  lemma NonNegativeFactor(b: int, d: int)
    requires 0 < d && 0 <= Product(b, d)
    ensures 0 <= b
  {
    if b < 0 {
      ProductMonotone(b, -1, d);
    }
  }
}
