/**
 The change search with the linear fee of the serialised size.

 The encoded length of the change value (an unsigned integer of section 2.1 of RFC 7049) is a step function, so
 the fee depends in steps on the very value that is searched for.
 */
module LinearChange {
  import opened Wrappers
  import Coin
  import Fee
  import opened TxBuild

  function UintLength(v: nat): (n: nat)
    ensures 1 <= n <= 9
  {
    if v < 24 then 1
    else if v < 0x100 then 2
    else if v < 0x1_0000 then 3
    else if v < 0x1_0000_0000 then 5
    else 9
  }

  /** How many values fit in a head of n bytes. */
  function Capacity(n: nat): (c: nat) {
    match n
    case 1 => 24
    case 2 => 0x100
    case 3 => 0x1_0000
    case 5 => 0x1_0000_0000
    case 9 => 0x1_0000_0000_0000_0000
    case _ => 0
  }

  /** The head of an unsigned integer is the shortest one that holds it. */
  lemma {:induction false} UintLengthIsShortest(v: nat, n: nat)
    requires v < 0x1_0000_0000_0000_0000
    ensures v < Capacity(UintLength(v))
    ensures v < Capacity(n) ==> UintLength(v) <= n
  {
  }

  lemma {:induction false} UintLengthMonotone(v: nat, w: nat)
    requires v <= w
    ensures UintLength(v) <= UintLength(w)
  {
  }

  /** An output is an array of two elements: the address and the value. */
  function OutputsSize(outputs: seq<TxOut>): (n: nat) {
    if outputs == [] then 0
    else
      var last := outputs[|outputs| - 1];
      OutputsSize(outputs[..|outputs| - 1]) + 1 + |last.address| + UintLength(last.value)
  }

  lemma {:induction false} SizeWith(outputs: seq<TxOut>, address: seq<bv8>, v: Coins)
    ensures OutputsSize(With(outputs, address, v)) == OutputsSize(outputs) + 1 + |address| + UintLength(v)
  {
    assert With(outputs, address, v)[..|outputs|] == outputs;
  }

  /** The linear fee of the serialised size; `overhead` is the size of all but the outputs. */
  function Linear(fee: Fee.LinearFee, overhead: seq<TxoPointer> -> nat): (f: FeeAlgorithm) {
    (ptrs: seq<TxoPointer>, outputs: seq<TxOut>) => fee.Estimate(overhead(ptrs) + OutputsSize(outputs))
  }

  /** The linear fee meets what the change search asks of a fee, as long as it does not wrap around. */
  lemma {:induction false} LinearFeeGrows(fee: Fee.LinearFee, overhead: seq<TxoPointer> -> nat, ptrs: seq<TxoPointer>,
                       outputs: seq<TxOut>, address: seq<bv8>)
    requires fee.NoWrap(overhead(ptrs) + OutputsSize(outputs) + |address| + 10)
    ensures FeeGrows(Linear(fee, overhead), ptrs, outputs, address)
  {
    var base := overhead(ptrs) + OutputsSize(outputs);
    forall size: nat, larger: nat | size <= larger <= base + |address| + 10
      ensures Fee.AtMost(fee.Estimate(size), fee.Estimate(larger))
    {
      Fee.NoWrapBelow(fee, larger, base + |address| + 10);
      Fee.EstimateMonotone(fee, size, larger);
    }
    forall v: Coins
      ensures Fee.AtMost(Linear(fee, overhead)(ptrs, outputs), Linear(fee, overhead)(ptrs, With(outputs, address, v)))
    {
      SizeWith(outputs, address, v);
    }
    forall v: Coins, w: Coins | v <= w
      ensures Fee.AtMost(Linear(fee, overhead)(ptrs, With(outputs, address, v)),
                         Linear(fee, overhead)(ptrs, With(outputs, address, w)))
    {
      SizeWith(outputs, address, v);
      SizeWith(outputs, address, w);
      UintLengthMonotone(v, w);
    }
  }

  // ----- the default fee: 155381 + 43.946 per byte

  /** The fee when the change value is encoded in this many bytes. */
  ghost function FeeOfLength(base: nat, length: nat): (fee: nat)
    requires base + length < 0x1_0000_0000
  {
    Fee.ToIntegral(155381000 + 43946 * (base + length))
  }

  /** The size of everything but the change value. */
  ghost function Base(s: Search, overhead: seq<TxoPointer> -> nat): (n: nat) {
    overhead(Pointers(s.inputs)) + OutputsSize(s.outputs) + 1 + |s.address|
  }

  ghost predicate DefaultSearch(s: Search, overhead: seq<TxoPointer> -> nat, max: Coins) {
    s.f == Linear(Fee.DEFAULT, overhead) && Base(s, overhead) + 9 < 0x1_0000_0000 && Searching(s, max)
  }

  lemma {:induction false} DefaultFeeOf(s: Search, overhead: seq<TxoPointer> -> nat, v: Coins)
    requires s.f == Linear(Fee.DEFAULT, overhead) && Base(s, overhead) + 9 < 0x1_0000_0000
    ensures var fee := FeeOfLength(Base(s, overhead), UintLength(v));
            s.f(Pointers(s.inputs), With(s.outputs, s.address, v)) == Coin.New(fee)
  {
    var size := Base(s, overhead) + UintLength(v);
    assert overhead(Pointers(s.inputs)) + OutputsSize(With(s.outputs, s.address, v)) == size by {
      SizeWith(s.outputs, s.address, v);
    }
    Fee.DefaultIsExact(size);
  }

  /** A balance with a change output fails exactly when the outputs and the fee pass the maximal supply. */
  lemma {:induction false} DefaultFits(s: Search, overhead: seq<TxoPointer> -> nat, v: Coins)
    requires s.f == Linear(Fee.DEFAULT, overhead) && Base(s, overhead) + 9 < 0x1_0000_0000
    requires Coin.Total(InputCoins(s.inputs)) <= Coin.MAX_COIN
    ensures s.At(v).Ok? <==>
            Coin.Total(OutputCoins(s.outputs)) + v + FeeOfLength(Base(s, overhead), UintLength(v)) <= Coin.MAX_COIN
    ensures s.At(v).Ok? ==>
              s.SlackAt(v) == Coin.Total(InputCoins(s.inputs)) - Coin.Total(OutputCoins(s.outputs)) - v
                              - FeeOfLength(Base(s, overhead), UintLength(v))
  {
    DefaultFeeOf(s, overhead, v);
    BalanceIsSlack(s.f, s.inputs, With(s.outputs, s.address, v));
    TotalWith(s.outputs, s.address, v);
  }

  /** The slack of a change value, relative to that of the smallest change. */
  lemma {:induction false} DefaultSlack(s: Search, overhead: seq<TxoPointer> -> nat, v: Coins)
    requires s.f == Linear(Fee.DEFAULT, overhead) && Base(s, overhead) + 9 < 0x1_0000_0000
    requires s.At(1).Ok? && s.At(v).Ok?
    ensures s.SlackAt(v) == s.SlackAt(1) + 1 - v
                            - (FeeOfLength(Base(s, overhead), UintLength(v)) - FeeOfLength(Base(s, overhead), 1))
  {
    DefaultFeeOf(s, overhead, 1);
    DefaultFeeOf(s, overhead, v);
    BalanceIsSlack(s.f, s.inputs, With(s.outputs, s.address, 1));
    BalanceIsSlack(s.f, s.inputs, With(s.outputs, s.address, v));
    TotalWith(s.outputs, s.address, 1);
    TotalWith(s.outputs, s.address, v);
  }

  lemma {:induction false} FeeSteps(base: nat, length: nat)
    requires 1 <= length <= 9 && base + 9 < 0x1_0000_0000
    ensures var step := FeeOfLength(base, length) - FeeOfLength(base, 1);
            43 * (length - 1) <= step <= 44 * (length - 1)
  {
  }

  /** The fee of the transaction without a change output. */
  lemma {:induction false} DefaultFeeWithout(s: Search, overhead: seq<TxoPointer> -> nat, size: nat)
    requires s.f == Linear(Fee.DEFAULT, overhead) && Base(s, overhead) + 9 < 0x1_0000_0000
    requires size == overhead(Pointers(s.inputs)) + OutputsSize(s.outputs)
    ensures s.f(Pointers(s.inputs), s.outputs) == Coin.New(Fee.ToIntegral(155381000 + 43946 * size))
  {
    Fee.DefaultIsExact(size);
  }

  /** The leftover exceeds the starting value by more than the unit, since the change output costs a fee. */
  lemma {:induction false} LeftoverAboveStart(s: Search, overhead: seq<TxoPointer> -> nat, max: Coins)
    requires DefaultSearch(s, overhead, max)
    ensures s.SlackAt(1) + 1 < max
  {
    var size := overhead(Pointers(s.inputs)) + OutputsSize(s.outputs);
    DefaultFeeWithout(s, overhead, size);
    DefaultFeeOf(s, overhead, 1);
    FeeRises(size, Base(s, overhead));
    BalanceIsSlack(s.f, s.inputs, s.outputs);
    BalanceIsSlack(s.f, s.inputs, With(s.outputs, s.address, 1));
    TotalWith(s.outputs, s.address, 1);
  }

  lemma {:induction false} FeeRises(size: nat, base: nat)
    requires size < base && base + 9 < 0x1_0000_0000
    ensures Fee.ToIntegral(155381000 + 43946 * size) < FeeOfLength(base, 1)
  {
  }

  /** By how much the fee of a change value exceeds that of the smallest one. */
  ghost function Step(s: Search, overhead: seq<TxoPointer> -> nat, v: nat): (n: int)
    requires Base(s, overhead) + 9 < 0x1_0000_0000
  {
    FeeOfLength(Base(s, overhead), UintLength(v)) - FeeOfLength(Base(s, overhead), 1)
  }

  /** The inputs are so close to the maximal supply that the greatest value tried passes it together with its fee. */
  ghost predicate TooRich(s: Search, overhead: seq<TxoPointer> -> nat)
    requires s.At(1).Ok? && Base(s, overhead) + 9 < 0x1_0000_0000
  {
    var ins, leftover := Coin.Total(InputCoins(s.inputs)), s.SlackAt(1);
    if leftover == 23 then ins + Step(s, overhead, 24) > Coin.MAX_COIN
    else leftover > 23 && ins - 1 + Step(s, overhead, leftover) > Coin.MAX_COIN
  }

  /** The greatest value tried: the leftover, or one more while that is encoded in one byte. */
  lemma {:induction false} DefaultProbe(s: Search, overhead: seq<TxoPointer> -> nat, max: Coins)
    requires DefaultSearch(s, overhead, max)
    ensures var leftover := s.SlackAt(1);
            s.Probe(max) == if leftover == 0 then 1 else if leftover < 24 then leftover + 1 else leftover
  {
    var start := s.Start();
    LeftoverAboveStart(s, overhead, max);
    BalanceIsSlack(s.f, s.inputs, s.outputs);
    DefaultFits(s, overhead, 1);
    DefaultFits(s, overhead, start);
    FeeSteps(Base(s, overhead), UintLength(start));
  }

  /** The balance at the greatest value tried fails exactly for such inputs. */
  lemma {:induction false} ProbeFailsIff(s: Search, overhead: seq<TxoPointer> -> nat, max: Coins)
    requires DefaultSearch(s, overhead, max)
    ensures s.At(s.Probe(max)).Err? <==> TooRich(s, overhead)
  {
    DefaultProbe(s, overhead, max);
    BalanceIsSlack(s.f, s.inputs, s.outputs);
    DefaultFits(s, overhead, 1);
    DefaultFits(s, overhead, s.Probe(max));
  }

  /** The search ends without a change. */
  ghost predicate GivesUp(s: Search, max: Coins)
    requires s.At(1).Ok?
  {
    s.At(s.Probe(max)).Err? || s.Overshoots(max)
  }

  ghost predicate InGap(s: Search, overhead: seq<TxoPointer> -> nat)
    requires s.At(1).Ok? && Base(s, overhead) + 9 < 0x1_0000_0000
  {
    23 <= s.SlackAt(1) <= Step(s, overhead, 24) - 3
  }

  lemma {:induction false} OvershootsInGap(s: Search, overhead: seq<TxoPointer> -> nat, max: Coins)
    requires DefaultSearch(s, overhead, max) && s.At(s.Probe(max)).Ok?
    ensures s.Overshoots(max) <==> InGap(s, overhead)
  {
    DefaultProbe(s, overhead, max);
    DefaultSlack(s, overhead, s.Probe(max));
    FeeSteps(Base(s, overhead), UintLength(s.Probe(max)));
    FeeSteps(Base(s, overhead), 2);
  }

  /**
   With the default fee the search gives up exactly in two cases: for leftovers from 23 up to three below the price of
   a second byte, which is 43 or 44, and for inputs so close to the maximal supply that the greatest value tried
   passes it.
   */
  lemma {:induction false} DefaultFeeOvershoots(s: Search, overhead: seq<TxoPointer> -> nat, max: Coins)
    requires DefaultSearch(s, overhead, max)
    ensures 43 <= Step(s, overhead, 24) <= 44
    ensures GivesUp(s, max) <==> InGap(s, overhead) || TooRich(s, overhead)
  {
    FeeSteps(Base(s, overhead), 2);
    ProbeFailsIff(s, overhead, max);
    if s.At(s.Probe(max)).Ok? {
      OvershootsInGap(s, overhead, max);
    }
  }

  /** In all those cases a change of 23 coins could have been given. */
  lemma {:induction false} AffordableDespiteError(s: Search, overhead: seq<TxoPointer> -> nat, max: Coins)
    requires DefaultSearch(s, overhead, max) && GivesUp(s, max)
    ensures s.Affordable(23)
  {
    DefaultFeeOvershoots(s, overhead, max);
    BalanceIsSlack(s.f, s.inputs, s.outputs);
    DefaultFits(s, overhead, 1);
    DefaultFits(s, overhead, 23);
  }

  /** What the search comes to: a change is found exactly outside the two cases. */
  lemma {:induction false} DefaultFindsChange(s: Search, overhead: seq<TxoPointer> -> nat, max: Coins,
                                              r: Result<Coins, Error>)
    requires DefaultSearch(s, overhead, max) && Outcome(s, max, r)
    ensures r.Ok? <==> !InGap(s, overhead) && !TooRich(s, overhead)
    ensures r.Ok? ==> IsChange(s, max, r.value)
  {
    DefaultFeeOvershoots(s, overhead, max);
  }

  /**
   With the default fee the change is the greatest affordable one, and no coin is left over unless one
   coin more would be encoded in more bytes.
   */
  lemma {:induction false} DefaultChangeIsExact(s: Search, overhead: seq<TxoPointer> -> nat, max: Coins, v: Coins)
    requires DefaultSearch(s, overhead, max) && IsChange(s, max, v)
    ensures s.Greatest(v)
    ensures s.SlackAt(v) == 0 || v + 1 in {24, 0x100, 0x1_0000, 0x1_0000_0000}
  {
    LeftoverNotAffordable(s, overhead, max);
    NextLength(v);
    assert s.Greatest(v);
    if UintLength(v + 1) == UintLength(v) {
      NothingLeft(s, overhead, v);
    }
  }

  lemma {:induction false} NothingLeft(s: Search, overhead: seq<TxoPointer> -> nat, v: Coins)
    requires s.f == Linear(Fee.DEFAULT, overhead) && Base(s, overhead) + 9 < 0x1_0000_0000
    requires s.Greatest(v) && UintLength(v + 1) == UintLength(v)
    ensures s.SlackAt(v) == 0
  {
    BalanceIsSlack(s.f, s.inputs, With(s.outputs, s.address, v));
    DefaultFits(s, overhead, v);
    if v < Coin.MAX_COIN {
      DefaultFits(s, overhead, v + 1);
      assert !s.Affordable(v + 1);
    }
  }

  lemma {:induction false} LeftoverNotAffordable(s: Search, overhead: seq<TxoPointer> -> nat, max: Coins)
    requires DefaultSearch(s, overhead, max)
    ensures s.At(max) != Ok(Coin.Zero)
  {
    LeftoverAboveStart(s, overhead, max);
    if s.At(max).Ok? {
      DefaultSlack(s, overhead, max);
      FeeSteps(Base(s, overhead), UintLength(max));
    }
  }

  lemma {:induction false} NextLength(v: nat)
    ensures UintLength(v + 1) == UintLength(v) || v + 1 in {24, 0x100, 0x1_0000, 0x1_0000_0000}
  {
  }

  // ----- for every transaction there is a leftover on which the search gives up

  /** A builder with one input, whose value leaves 23 coins when one is given as change. */
  ghost function Leaving23(overhead: seq<TxoPointer> -> nat, ptr: TxoPointer, outputs: seq<TxOut>,
                           address: seq<bv8>): (v: nat)
    requires overhead([ptr]) + OutputsSize(outputs) + |address| + 10 < 0x1_0000_0000
  {
    var base := overhead([ptr]) + OutputsSize(outputs) + 1 + |address|;
    Coin.Total(OutputCoins(outputs)) + FeeOfLength(base, 1) + 24
  }

  ghost predicate Leaves23(s: Search, overhead: seq<TxoPointer> -> nat) {
    && |s.inputs| == 1 && s.f == Linear(Fee.DEFAULT, overhead)
    && overhead([s.inputs[0].0]) + OutputsSize(s.outputs) + |s.address| + 10 < 0x1_0000_0000
    && s.inputs[0].1 == Leaving23(overhead, s.inputs[0].0, s.outputs, s.address)
    && s.inputs[0].1 + 44 <= Coin.MAX_COIN
  }

  lemma {:induction false} OneInput(s: Search)
    requires |s.inputs| == 1
    ensures Pointers(s.inputs) == [s.inputs[0].0] && Coin.Total(InputCoins(s.inputs)) == s.inputs[0].1
  {
    assert InputCoins(s.inputs) == [s.inputs[0].1];
  }

  lemma {:induction false} Leaves23At(s: Search, overhead: seq<TxoPointer> -> nat, v: Coins)
    requires Leaves23(s, overhead) && v <= 24
    ensures s.At(v).Ok?
    ensures v < 24 ==> s.SlackAt(v) == 24 - v
    ensures v == 24 ==> s.SlackAt(v) < -(24 + 1)
  {
    var base := Base(s, overhead);
    OneInput(s);
    DefaultFeeOf(s, overhead, v);
    FeeSteps(base, 2);
    TotalWith(s.outputs, s.address, v);
    BalanceIsSlack(s.f, s.inputs, With(s.outputs, s.address, v));
  }

  lemma {:induction false} Leaves23Without(s: Search, overhead: seq<TxoPointer> -> nat) returns (max: Coins)
    requires Leaves23(s, overhead)
    ensures Balance(s.f, s.inputs, s.outputs) == Ok(Coin.Positive(max)) && max > 24
  {
    var size := overhead([s.inputs[0].0]) + OutputsSize(s.outputs);
    OneInput(s);
    DefaultFeeWithout(s, overhead, size);
    FeeRises(size, Base(s, overhead));
    BalanceIsSlack(s.f, s.inputs, s.outputs);
    max := s.inputs[0].1 - Coin.Total(OutputCoins(s.outputs)) - Fee.ToIntegral(155381000 + 43946 * size);
  }

  lemma {:induction false} Leaves23Valid(s: Search, overhead: seq<TxoPointer> -> nat)
    requires Leaves23(s, overhead)
    ensures s.Valid() && Base(s, overhead) + 9 < 0x1_0000_0000
  {
    OneInput(s);
    LinearFeeGrows(Fee.DEFAULT, overhead, Pointers(s.inputs), s.outputs, s.address);
  }

  /**
   For all outputs, every change address and every size of the rest, the search gives up on a builder whose input
   leaves 23 coins, although a change of 23 is affordable.
   */
  lemma {:induction false} SearchFailsOnSmallLeftover(s: Search, overhead: seq<TxoPointer> -> nat) returns (max: Coins)
    requires Leaves23(s, overhead)
    ensures DefaultSearch(s, overhead, max) && s.At(s.Probe(max)).Ok? && s.Overshoots(max) && s.Affordable(23)
    ensures forall r :: Outcome(s, max, r) ==> r == Err(CoinError(Coin.CoinError.Negative))
  {
    max := Leaves23Without(s, overhead);
    Leaves23Valid(s, overhead);
    Leaves23At(s, overhead, 1);
    Leaves23At(s, overhead, 23);
    Leaves23At(s, overhead, 24);
    assert s.Start() == 23 && s.Probe(max) == 24;
  }

  /** For a change address of 43 bytes and 200 bytes apart from the outputs, 166172 is such an input. */
  lemma {:induction false} SmallLeftoverExample(ptr: TxoPointer, address: seq<bv8>)
    requires |address| == 43
    ensures Leaves23(Search(Linear(Fee.DEFAULT, _ => 200), [(ptr, 166172)], [], address), _ => 200)
  {
  }

  // ----- an input at the maximal supply

  /** A builder with one input and no outputs, in 200 bytes and a change address of 43 bytes. */
  ghost function AllCoins(ptr: TxoPointer, address: seq<bv8>): (s: Search) {
    Search(Linear(Fee.DEFAULT, _ => 200), [(ptr, Coin.MAX_COIN)], [], address)
  }

  lemma {:induction false} AllCoinsAt(ptr: TxoPointer, address: seq<bv8>, v: Coins)
    requires |address| == 43 && v < 24
    ensures var s := AllCoins(ptr, address);
            && Base(s, _ => 200) == 244 && Coin.Total(InputCoins(s.inputs)) == Coin.MAX_COIN
            && s.At(v).Ok? && s.SlackAt(v) == Coin.MAX_COIN - v - 166148
  {
    var s := AllCoins(ptr, address);
    OneInput(s);
    DefaultFits(s, _ => 200, v);
  }

  lemma {:induction false} AllCoinsWithout(ptr: TxoPointer, address: seq<bv8>) returns (max: Coins)
    requires |address| == 43
    ensures var s := AllCoins(ptr, address);
            Balance(s.f, s.inputs, s.outputs) == Ok(Coin.Positive(max))
  {
    var s := AllCoins(ptr, address);
    OneInput(s);
    DefaultFeeWithout(s, _ => 200, 200);
    BalanceIsSlack(s.f, s.inputs, s.outputs);
    max := Coin.MAX_COIN - 164171;
  }

  /** With an input of all coins the greatest value tried passes the maximal supply, although 23 is affordable. */
  lemma {:induction false} AllCoinsExample(ptr: TxoPointer, address: seq<bv8>) returns (max: Coins)
    requires |address| == 43
    ensures var s := AllCoins(ptr, address);
            && DefaultSearch(s, _ => 200, max) && TooRich(s, _ => 200)
            && s.At(s.Probe(max)).Err? && s.Affordable(23)
  {
    var s := AllCoins(ptr, address);
    max := AllCoinsWithout(ptr, address);
    AllCoinsAt(ptr, address, 1);
    AllCoinsAt(ptr, address, 23);
    LinearFeeGrows(Fee.DEFAULT, _ => 200, Pointers(s.inputs), s.outputs, s.address);
    FeeSteps(244, 9);
    ProbeFailsIff(s, _ => 200, max);
  }
}
