/** Fee arithmetic: half-even division and the platform fee, on mathematical
    integers and on 64-bit machine integers. */
module Money {

  /** Division rounding half to even. Callers guarantee a non-negative numerator
      and a positive denominator. */
  function DivHalfEven(n: nat, d: nat): nat
    requires d > 0
  {
    var q, r := n / d, n % d;
    if 2 * r < d then q
    else if 2 * r > d then q + 1
    else if q % 2 == 0 then q
    else q + 1
  }

  /** Gripe's cut: 300 basis points, rounded half to even. */
  function GripeFee(amount: nat): nat {
    DivHalfEven(amount * 300, 10_000)
  }

  /** What the merchant keeps of an amount. */
  function Net(amount: nat): int {
    amount - GripeFee(amount)
  }

  function Abs(x: int): nat {
    if x < 0 then -x else x
  }

  /** x is a nearest integer to n/d, and the even one when two are equally near. */
  predicate IsNearestEven(n: int, d: int, x: int) {
    && 2 * Abs(n - x * d) <= d
    && (2 * Abs(n - x * d) == d ==> x % 2 == 0)
  }

  /** Rounding is right: DivHalfEven yields the one and only nearest-even integer. */
  lemma HalfEvenIsNearest(n: nat, d: nat, x: int)
    requires d > 0
    ensures DivHalfEven(n, d) == x <==> IsNearestEven(n, d, x)
  {
    var q, r := n / d, n % d;
    assert n == q * d + r;
    var y := DivHalfEven(n, d);
    assert (q + 1) * d == q * d + d;
    assert IsNearestEven(n, d, y);
    if IsNearestEven(n, d, x) && x != y {
      NearestEvenIsUnique(n, d, x, y);
    }
  }

  lemma NearestEvenIsUnique(n: int, d: int, x: int, y: int)
    requires d > 0
    requires IsNearestEven(n, d, x) && IsNearestEven(n, d, y)
    ensures x == y
  {
    MultiplesApart(x, y, d);
    MultiplesApart(y, x, d);
  }

  lemma MultiplesApart(x: int, y: int, d: int)
    requires d > 0
    ensures x < y ==> y * d - x * d >= d
    ensures x + 1 < y ==> y * d - x * d >= 2 * d
  {
    if x < y {
      assert y * d == x * d + d + (y - x - 1) * d;
      MulNonNegative(y - x - 1, d);
    }
    if x + 1 < y {
      assert y * d == x * d + 2 * d + (y - x - 2) * d;
      MulNonNegative(y - x - 2, d);
    }
  }

  lemma MulNonNegative(a: int, b: int)
    requires a >= 0 && b >= 0
    ensures a * b >= 0
  {
  }

  /** The fee is within half a minor unit of 3%. */
  lemma FeeWithinHalf(a: nat)
    ensures 2 * Abs(a * 300 - GripeFee(a) * 10_000) <= 10_000
  {
    HalfEvenIsNearest(a * 300, 10_000, GripeFee(a));
  }

  /** Fee and net amount both grow with the amount, the fee never exceeds it,
      and a positive amount always leaves the merchant something. */
  lemma FeeShape(a: nat, b: nat)
    requires a <= b
    ensures GripeFee(a) <= GripeFee(b)
    ensures Net(a) <= Net(b)
    ensures 0 <= GripeFee(a) <= a
    ensures a >= 1 ==> Net(a) >= 1
  {
    FeeWithinHalf(a);
    FeeWithinHalf(b);
  }

  // ---------- split refunds ----------

  function Total(xs: seq<nat>): nat {
    if xs == [] then 0 else xs[0] + Total(xs[1..])
  }

  function TotalFees(xs: seq<nat>): nat {
    if xs == [] then 0 else GripeFee(xs[0]) + TotalFees(xs[1..])
  }

  lemma {:induction false} FeesNearShare(xs: seq<nat>)
    ensures 2 * Abs(Total(xs) * 300 - TotalFees(xs) * 10_000) <= |xs| * 10_000
  {
    if xs != [] {
      FeesNearShare(xs[1..]);
      FeeWithinHalf(xs[0]);
    }
  }

  /** Splitting an amount into n refunds moves the returned fee by at most (n + 1) / 2. */
  lemma SplitRefundDrift(refunds: seq<nat>)
    requires refunds != []
    ensures 2 * Abs(TotalFees(refunds) - GripeFee(Total(refunds))) <= |refunds| + 1
  {
    FeesNearShare(refunds);
    FeeWithinHalf(Total(refunds));
  }

  /** The drift bound is met for every n = 4k + 3, by refunding in slices of 50. */
  lemma SplitRefundDriftIsMet(k: nat)
    ensures var slices := seq(4 * k + 3, _ => 50);
            2 * (TotalFees(slices) - GripeFee(Total(slices))) == |slices| + 1
  {
    var n := 4 * k + 3;
    SlicesOfFifty(n);
    HalfEvenIsNearest(50 * n * 300, 10_000, 6 * k + 4);
    assert IsNearestEven(50 * n * 300, 10_000, 6 * k + 4);
  }

  lemma {:induction false} SlicesOfFifty(n: nat)
    ensures var slices := seq(n, _ => 50);
            Total(slices) == 50 * n && TotalFees(slices) == 2 * n
  {
    if n > 0 {
      SlicesOfFifty(n - 1);
      assert seq(n, _ => 50)[1..] == seq(n - 1, _ => 50);
    }
  }

  // ---------- the fee of a sum against the sum of the fees ----------

  /** How far an amount's 3% lies above the nearest whole unit, in hundredths: the
      hundredths themselves below one half, their complement above it, and on a tie one
      half towards the even side. */
  function Residue(amount: nat): int {
    var r := 3 * amount % 100;
    if r < 50 then r
    else if r > 50 then r - 100
    else if amount % 200 == 150 then 50
    else -50
  }

  /** On a tie the amount tells whether the whole part is even. */
  lemma TieParity(amount: nat, q: nat)
    requires 3 * amount == 100 * q + 50
    ensures amount % 200 == 150 <==> q % 2 == 0
  {
  }

  lemma QuotientInHundredths(amount: nat)
    ensures amount * 300 / 10_000 == 3 * amount / 100
    ensures amount * 300 % 10_000 == 100 * (3 * amount % 100)
  {
  }

  lemma ResidueIsRoundingError(amount: nat)
    ensures 3 * amount - 100 * GripeFee(amount) == Residue(amount)
  {
    var q, r := 3 * amount / 100, 3 * amount % 100;
    assert 3 * amount == 100 * q + r;
    QuotientInHundredths(amount);
    if r == 50 {
      TieParity(amount, q);
    }
  }

  function TotalResidue(xs: seq<nat>): int {
    if xs == [] then 0 else Residue(xs[0]) + TotalResidue(xs[1..])
  }

  lemma {:induction false} ResiduesAddUp(xs: seq<nat>)
    ensures 3 * Total(xs) - 100 * TotalFees(xs) == TotalResidue(xs)
  {
    if xs != [] {
      ResiduesAddUp(xs[1..]);
      ResidueIsRoundingError(xs[0]);
    }
  }

  /** The residues cancel to less than one half, or to one half where the tie falls even. */
  predicate ResiduesCancel(total: int, residue: int) {
    Abs(residue) < 50 || (Abs(residue) == 50 && (3 * total - residue) % 200 == 0)
  }

  lemma FeeOfSumIff(total: nat, fees: int, residue: int)
    requires 3 * total - 100 * fees == residue
    ensures fees == GripeFee(total) <==> ResiduesCancel(total, residue)
  {
    hide DivHalfEven;
    HalfEvenIsNearest(total * 300, 10_000, fees);
    EvenHundreds(fees);
  }

  lemma EvenHundreds(x: int)
    ensures 100 * x % 200 == 0 <==> x % 2 == 0
  {
  }

  /** Settling payments books the sum of the rounded fees. It is the rounded fee of the
      sum, as the use cases have it, exactly when the residues of the amounts cancel. */
  lemma FeesAddUpIff(xs: seq<nat>)
    ensures TotalFees(xs) == GripeFee(Total(xs)) <==> ResiduesCancel(Total(xs), TotalResidue(xs))
  {
    ResiduesAddUp(xs);
    FeeOfSumIff(Total(xs), TotalFees(xs), TotalResidue(xs));
  }

  // ---------- 64-bit machine integers ----------

  const TWO_63 := 0x8000_0000_0000_0000
  const TWO_64 := 0x1_0000_0000_0000_0000
  const MAX_INT64 := TWO_63 - 1

  /** Two's-complement wrap-around to 64 bits. */
  function Wrap64(x: int): (w: int)
    ensures -TWO_63 <= w < TWO_63
    ensures exists k :: x == w + k * TWO_64
  {
    var m := x % TWO_64;
    var w := if m < TWO_63 then m else m - TWO_64;
    assert x == m + (x / TWO_64) * TWO_64;
    assert x == w + (x / TWO_64 + if m < TWO_63 then 0 else 1) * TWO_64;
    w
  }

  /** Machine division truncates toward zero. */
  function TruncDiv(n: int, d: int): int
    requires d > 0
  {
    if n >= 0 then n / d else -(-n / d)
  }

  function TruncMod(n: int, d: int): int
    requires d > 0
  {
    n - TruncDiv(n, d) * d
  }

  function DivHalfEven64(n: int, d: int): int
    requires d > 0
  {
    var q, r := TruncDiv(n, d), TruncMod(n, d);
    if Wrap64(2 * r) < d then q
    else if Wrap64(2 * r) > d then Wrap64(q + 1)
    else if TruncMod(q, 2) == 0 then q
    else Wrap64(q + 1)
  }

  function GripeFee64(amount: int): int {
    DivHalfEven64(Wrap64(amount * 300), 10_000)
  }

  /** Over every non-negative machine amount, the machine fee is the mathematical
      fee exactly up to the amount whose product with the rate still fits. */
  lemma MachineFeeIsExactIff(a: int)
    requires 0 <= a <= MAX_INT64
    ensures GripeFee64(a) == GripeFee(a) <==> a <= MAX_INT64 / 300
  {
    var n := a * 300;
    var w := Wrap64(n);
    var k :| n == w + k * TWO_64;
    if a <= MAX_INT64 / 300 {
      assert k == 0;
      MachineQuotientExact(n);
    } else {
      assert k >= 1;
      assert w <= n - TWO_64;
      FeeWithinHalf(a);
      MachineQuotientBound(w);
    }
  }

  lemma MachineQuotientExact(n: int)
    requires 0 <= n < TWO_63
    ensures DivHalfEven64(n, 10_000) == DivHalfEven(n, 10_000)
  {
  }

  lemma MachineQuotientBound(n: int)
    requires -TWO_63 <= n < TWO_63
    ensures DivHalfEven64(n, 10_000) * 10_000 <= n + 2 * 10_000
  {
  }
}
