/** Bounded coin values (cardano/src/coin.rs) and the linear fee (cardano/src/fee.rs). */
module Coin {
  import opened Wrappers

  const MAX_COIN: nat := 45_000_000_000_000_000

  /** A Lovelace amount that has been through the bound check. */
  type Coin = c: nat | c <= MAX_COIN

  datatype CoinError = OutOfBound(v: nat) | Negative

  /** The difference between two coins, never a zero inside Positive or Negative. */
  datatype CoinDiff = Positive(c: Coin) | Zero | Negative(c: Coin)

  function New(v: nat): (r: Result<Coin, CoinError>)
    ensures r.Ok? <==> v <= MAX_COIN
    ensures r.Ok? ==> r.value == v
  {
    if v <= MAX_COIN then Ok(v) else Err(OutOfBound(v))
  }

  function Add(a: Coin, b: Coin): (r: Result<Coin, CoinError>)
    ensures r.Ok? <==> a + b <= MAX_COIN
    ensures r.Ok? ==> r.value == a + b
  {
    New(a + b)
  }

  function Sub(a: Coin, b: Coin): (r: Result<Coin, CoinError>)
    ensures r.Ok? <==> b <= a
    ensures r.Ok? ==> r.value + b == a
    ensures r.Err? ==> r.error == CoinError.Negative
  {
    if b > a then Err(CoinError.Negative) else Ok(a - b)
  }

  function Differential(a: Coin, against: Coin): (d: CoinDiff)
    ensures d.Positive? ==> d.c > 0 && a == against + d.c
    ensures d.Zero? ==> a == against
    ensures d.Negative? ==> d.c > 0 && a + d.c == against
  {
    if a == against then Zero
    else if a > against then Positive(a - against)
    else CoinDiff.Negative(against - a)
  }

  /** Subtraction undoes exactly the additions that stay within the bound. */
  lemma {:induction false} AddSubRoundTrip(a: Coin, b: Coin, c: Coin)
    ensures Add(a, b) == Ok(c) <==> Sub(c, b) == Ok(a)
  {
  }

  /** The difference leads from the second coin back to the first, by an addition or a subtraction that succeeds. */
  lemma {:induction false} DifferentialLeadsBack(a: Coin, against: Coin)
    ensures match Differential(a, against)
            case Positive(c) => Add(against, c) == Ok(a) && Differential(against, a) == CoinDiff.Negative(c)
            case Zero => against == a
            case Negative(c) => Sub(against, c) == Ok(a) && Differential(against, a) == Positive(c)
  {
  }

  ghost function Total(coins: seq<Coin>): (t: nat) {
    if coins == [] then 0 else Total(coins[..|coins| - 1]) + coins[|coins| - 1]
  }

  /** The bound is checked at every addition, which amounts to checking the total. */
  function SumCoins(coins: seq<Coin>): (r: Result<Coin, CoinError>)
    ensures r.Ok? <==> Total(coins) <= MAX_COIN
    ensures r.Ok? ==> r.value == Total(coins)
  {
    if coins == [] then New(0)
    else
      var acc :- SumCoins(coins[..|coins| - 1]);
      Add(acc, coins[|coins| - 1])
  }
}

module Fee {
  import opened Wrappers
  import opened Arithmetic
  import Coin

  const U64: nat := 0x1_0000_0000_0000_0000

  /** A number of thousandths, in 64 bits. */
  type Milli = m: nat | m < U64 witness 0

  function Integral(i: nat): (m: Milli) {
    (i * 1000) % U64
  }

  function ToIntegral(m: Milli): (i: nat)
    ensures i * 1000 >= m && (i == 0 || (i - 1) * 1000 < m)
  {
    if m % 1000 == 0 then m / 1000 else m / 1000 + 1
  }

  function AddMilli(a: Milli, b: Milli): (m: Milli) {
    (a + b) % U64
  }

  /** The product is computed in 128 bits and cut to 64 after the division. */
  function MulMilli(a: Milli, b: Milli): (m: Milli) {
    ((a * b) / 1000) % U64
  }

  /** Affine in the size of the transaction. */
  datatype LinearFee = LinearFee(constant: Milli, coefficient: Milli) {

    function Estimate(size: nat): (r: Result<Coin.Coin, Coin.CoinError>) {
      Coin.New(ToIntegral(AddMilli(constant, MulMilli(coefficient, Integral(size)))))
    }

    /** In a build with overflow checks: none for a panic. The cast after the product is not checked. */
    function CheckedEstimate(size: nat): (r: Option<Result<Coin.Coin, Coin.CoinError>>) {
      if size * 1000 >= U64 then None
      else
        var product := MulMilli(coefficient, Integral(size));
        if constant + product >= U64 then None else Some(Coin.New(ToIntegral(constant + product)))
    }

    /** The sizes whose fee is exact: the result fits, and so does the size in thousandths unless it is not used. */
    ghost predicate NoWrap(size: nat) {
      constant + coefficient * size < U64 && (coefficient == 0 || size * 1000 < U64)
    }
  }

  const DEFAULT: LinearFee := LinearFee(155381000, 43946)

  /** The default fee is exact for every size below 2^32. */
  lemma {:induction false} DefaultIsExact(size: nat)
    requires size < 0x1_0000_0000
    ensures DEFAULT.Estimate(size) == Coin.New(ToIntegral(155381000 + 43946 * size))
  {
    ExactMilli(DEFAULT, size);
  }

  /** A fee that is refused counts as larger than every fee that is not. */
  ghost predicate AtMost<E>(a: Result<Coin.Coin, E>, b: Result<Coin.Coin, E>) {
    b.Ok? ==> a.Ok? && a.value <= b.value
  }

  /** The 64-bit arithmetic gives the affine fee for exactly these sizes. */
  lemma {:induction false} ExactMilli(f: LinearFee, size: nat)
    ensures AddMilli(f.constant, MulMilli(f.coefficient, Integral(size))) == f.constant + f.coefficient * size <==>
            f.NoWrap(size)
  {
    var product, m := f.coefficient * size, MulMilli(f.coefficient, Integral(size));
    if size * 1000 < U64 || f.coefficient == 0 {
      WholeProduct(f.coefficient, size);
      WholeSum(f.constant, m, product);
    } else {
      CutProduct(f.coefficient, size);
      CutSum(f.constant, m, product);
    }
  }

  lemma {:induction false} WholeSum(a: Milli, m: Milli, product: nat)
    requires m == product % U64
    ensures AddMilli(a, m) == a + product <==> a + product < U64
  {
  }

  lemma {:induction false} CutSum(a: Milli, m: Milli, product: nat)
    requires m < product
    ensures AddMilli(a, m) < a + product
  {
  }

  lemma {:induction false} WholeProduct(c: Milli, size: nat)
    requires size * 1000 < U64 || c == 0
    ensures MulMilli(c, Integral(size)) == (c * size) % U64
  {
    if c > 0 {
      assert c * (size * 1000) == (c * size) * 1000;
      DivideThousand(c * size);
    }
  }

  lemma {:induction false} DivideThousand(n: nat)
    ensures (n * 1000) / 1000 == n
  {
  }

  /** A size that does not fit in thousandths is charged too little. */
  lemma {:induction false} CutProduct(c: Milli, size: nat)
    requires c > 0 && size * 1000 >= U64
    ensures MulMilli(c, Integral(size)) < c * size
  {
    var cut := Integral(size);
    assert cut <= size * 1000 - 1000;
    MulMono(cut, size * 1000 - 1000, c);
    assert (size * 1000 - 1000) * c == (c * size - c) * 1000;
    DivideThousand(c * size - c);
    assert (c * cut) / 1000 <= c * size - c;
  }

  /** Overflow checks do not change a fee that they let through. */
  lemma {:induction false} CheckedIsSame(f: LinearFee, size: nat)
    requires f.CheckedEstimate(size).Some?
    ensures f.CheckedEstimate(size).value == f.Estimate(size)
  {
    SmallSum(f.constant, MulMilli(f.coefficient, Integral(size)));
  }

  lemma {:induction false} SmallSum(a: Milli, b: Milli)
    requires a + b < U64
    ensures AddMilli(a, b) == a + b
  {
  }

  /** Such a fee is exact unless the product alone is too large for 64 bits. */
  lemma {:induction false} ChecksMissTheCast(f: LinearFee, size: nat)
    requires f.CheckedEstimate(size).Some?
    ensures f.NoWrap(size) <==> f.coefficient * size < U64
  {
    WholeProduct(f.coefficient, size);
    SumFits(f.constant, MulMilli(f.coefficient, Integral(size)), f.coefficient * size);
  }

  lemma {:induction false} SumFits(a: Milli, m: Milli, product: nat)
    requires m == product % U64 && a + m < U64
    ensures a + product < U64 <==> product < U64
  {
  }

  lemma {:induction false} NoWrapBelow(f: LinearFee, size: nat, larger: nat)
    requires size <= larger && f.NoWrap(larger)
    ensures f.NoWrap(size) && f.coefficient * size <= f.coefficient * larger
  {
    MulMono(size, larger, f.coefficient);
  }

  /** Without wrap-around the fee never falls as the transaction grows. */
  lemma {:induction false} EstimateMonotone(f: LinearFee, size: nat, larger: nat)
    requires size <= larger && f.NoWrap(larger)
    ensures AtMost(f.Estimate(size), f.Estimate(larger))
  {
    NoWrapBelow(f, size, larger);
    ExactMilli(f, size);
    ExactMilli(f, larger);
  }

  /** Past the wrap-around it can fall: a larger transaction may be charged less. */
  lemma {:induction false} EstimateCanFall()
    ensures var f := LinearFee(0, 0x8000_0000_0000_0000);
            && f.NoWrap(1) && !f.NoWrap(2) && f.Estimate(2) == Ok(0) && !AtMost(f.Estimate(1), f.Estimate(2))
            && f.CheckedEstimate(1) == Some(f.Estimate(1)) && f.CheckedEstimate(2) == Some(f.Estimate(2))
  {
    var f := LinearFee(0, 0x8000_0000_0000_0000);
    ExactMilli(f, 1);
    assert MulMilli(f.coefficient, Integral(2)) == 0;
  }
}
