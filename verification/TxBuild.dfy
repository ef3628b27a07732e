/** The transaction builder (cardano/src/txbuild.rs) and its search for the change output. */
module TxBuild {
  import opened Wrappers
  import Coin
  import Fee

  type Coins = Coin.Coin

  datatype TxoPointer = TxoPointer(id: nat, index: nat)

  /** An output: an address, as the bytes it is encoded to, and a value. */
  datatype TxOut = TxOut(address: seq<bv8>, value: Coins)

  datatype Error =
    | NotEnoughTotalInput
    | OutputPolicyNotEnoughCoins(leftover: Coins)
    | CoinError(coin: Coin.CoinError)
    | FeeError(fee: Coin.CoinError)

  /** The fee of a transaction, with one placeholder witness for each input. */
  type FeeAlgorithm = (seq<TxoPointer>, seq<TxOut>) -> Result<Coins, Coin.CoinError>

  function Pointers(inputs: seq<(TxoPointer, Coins)>): (ptrs: seq<TxoPointer>) {
    seq(|inputs|, i requires 0 <= i < |inputs| => inputs[i].0)
  }

  function InputCoins(inputs: seq<(TxoPointer, Coins)>): (coins: seq<Coins>) {
    seq(|inputs|, i requires 0 <= i < |inputs| => inputs[i].1)
  }

  function OutputCoins(outputs: seq<TxOut>): (coins: seq<Coins>) {
    seq(|outputs|, i requires 0 <= i < |outputs| => outputs[i].value)
  }

  function FromCoin<T>(r: Result<T, Coin.CoinError>): (q: Result<T, Error>)
    ensures q.Ok? <==> r.Ok?
    ensures q.Ok? ==> q.value == r.value
  {
    if r.Ok? then Ok(r.value) else Err(CoinError(r.error))
  }

  /** The difference between the inputs and the outputs with their fee. */
  function Balance(f: FeeAlgorithm, inputs: seq<(TxoPointer, Coins)>, outputs: seq<TxOut>)
    : (r: Result<Coin.CoinDiff, Error>)
  {
    var fee := f(Pointers(inputs), outputs);
    if fee.Err? then Err(FeeError(fee.error))
    else
      var ins :- FromCoin(Coin.SumCoins(InputCoins(inputs)));
      var outs :- FromCoin(Coin.SumCoins(OutputCoins(outputs)));
      var all :- FromCoin(Coin.Add(outs, fee.value));
      Ok(Coin.Differential(ins, all))
  }

  // ----- what a balance is worth

  /** The coins by which the inputs exceed the outputs and the fee; negative when they fall short. */
  ghost function Slack(f: FeeAlgorithm, inputs: seq<(TxoPointer, Coins)>, outputs: seq<TxOut>): (s: int)
    requires f(Pointers(inputs), outputs).Ok?
  {
    Coin.Total(InputCoins(inputs)) - Coin.Total(OutputCoins(outputs)) - f(Pointers(inputs), outputs).value
  }

  /** The meaning of the three outcomes of a balance, and of its success. */
  lemma {:induction false} BalanceIsSlack(f: FeeAlgorithm, inputs: seq<(TxoPointer, Coins)>, outputs: seq<TxOut>)
    ensures Balance(f, inputs, outputs).Ok? <==>
              && f(Pointers(inputs), outputs).Ok?
              && Coin.Total(InputCoins(inputs)) <= Coin.MAX_COIN
              && Coin.Total(OutputCoins(outputs)) + f(Pointers(inputs), outputs).value <= Coin.MAX_COIN
    ensures Balance(f, inputs, outputs).Ok? ==>
              match Balance(f, inputs, outputs).value
              case Positive(c) => Slack(f, inputs, outputs) == c > 0
              case Zero => Slack(f, inputs, outputs) == 0
              case Negative(c) => Slack(f, inputs, outputs) + c == 0 && c > 0
  {
  }

  function With(outputs: seq<TxOut>, address: seq<bv8>, value: Coins): (r: seq<TxOut>)
    ensures |r| == |outputs| + 1
  {
    outputs + [TxOut(address, value)]
  }

  /** The fee never falls when a change output is added, or when its value grows. */
  ghost predicate FeeGrows(f: FeeAlgorithm, ptrs: seq<TxoPointer>, outputs: seq<TxOut>, address: seq<bv8>) {
    && (forall v: Coins {:trigger With(outputs, address, v)} ::
          Fee.AtMost(f(ptrs, outputs), f(ptrs, With(outputs, address, v))))
    && (forall v: Coins, w: Coins {:trigger With(outputs, address, v), With(outputs, address, w)} ::
          v <= w ==> Fee.AtMost(f(ptrs, With(outputs, address, v)), f(ptrs, With(outputs, address, w))))
  }

  lemma {:induction false} TotalWith(outputs: seq<TxOut>, address: seq<bv8>, v: Coins)
    ensures Coin.Total(OutputCoins(With(outputs, address, v))) == Coin.Total(OutputCoins(outputs)) + v
  {
    var all := OutputCoins(With(outputs, address, v));
    assert all[..|all| - 1] == OutputCoins(outputs);
  }

  /** The transaction being searched for: everything but the value of the change output. */
  datatype Search = Search(f: FeeAlgorithm, inputs: seq<(TxoPointer, Coins)>, outputs: seq<TxOut>, address: seq<bv8>) {

    ghost predicate Valid() {
      FeeGrows(f, Pointers(inputs), outputs, address)
    }

    function At(v: Coins): (r: Result<Coin.CoinDiff, Error>) {
      Balance(f, inputs, With(outputs, address, v))
    }

    ghost function SlackAt(v: Coins): (s: int)
      requires At(v).Ok?
    {
      match At(v).value
      case Positive(c) => c
      case Zero => 0
      case Negative(c) => 0 - c
    }

    /** The inputs cover the outputs, this change and the fee. */
    ghost predicate Affordable(v: Coins) {
      At(v).Ok? && SlackAt(v) >= 0
    }

    ghost predicate Greatest(v: Coins) {
      Affordable(v) && forall w: Coins :: Affordable(w) ==> w <= v
    }

    /** Where the search starts, once the smallest change is known to be affordable. */
    function Start(): (v: Coins)
      requires At(1).Ok?
    {
      match At(1).value
      case Positive(c) => c
      case _ => 1
    }

    /** The greatest value the search tries: the starting value, or one more while coins are left over. */
    function Probe(max: Coins): (v: Coins)
      requires At(1).Ok?
    {
      var start := Start();
      if At(start).Ok? && At(start).value.Positive? && start + 1 < max then start + 1 else start
    }

    /** At the greatest value it tries, the search falls short by more coins than it could take back. */
    ghost predicate Overshoots(max: Coins)
      requires At(1).Ok? && At(Probe(max)).Ok?
    {
      SlackAt(Probe(max)) < -(Probe(max) + 1)
    }

    /** More change costs at least as much more. */
    lemma {:induction false} SlackFalls(v: Coins, w: Coins)
      requires Valid() && v <= w && At(w).Ok?
      ensures At(v).Ok? && SlackAt(v) >= SlackAt(w) + (w - v)
    {
      BalanceIsSlack(f, inputs, With(outputs, address, v));
      BalanceIsSlack(f, inputs, With(outputs, address, w));
      TotalWith(outputs, address, v);
      TotalWith(outputs, address, w);
    }

    /** The leftover without a change output bounds the change and its slack. */
    lemma {:induction false} SlackBelowLeftover(max: Coins, v: Coins)
      requires Valid() && Balance(f, inputs, outputs) == Ok(Coin.Positive(max)) && At(v).Ok?
      ensures SlackAt(v) <= max - v
    {
      BalanceIsSlack(f, inputs, With(outputs, address, v));
      BalanceIsSlack(f, inputs, outputs);
      TotalWith(outputs, address, v);
    }

    /** The first unaffordable value settles what the greatest affordable one is. */
    lemma {:induction false} GreatestBelow(v: Coins, w: Coins)
      requires Valid() && Affordable(v) && w == v + 1 && !Affordable(w)
      ensures Greatest(v)
    {
      forall u: Coins | Affordable(u) ensures u <= v {
        if u > v {
          SlackFalls(w, u);
        }
      }
    }

    lemma {:induction false} GreatestExact(v: Coins)
      requires Valid() && At(v) == Ok(Coin.Zero)
      ensures Greatest(v)
    {
      forall u: Coins | Affordable(u) ensures u <= v {
        if u > v {
          SlackFalls(v, u);
        }
      }
    }
  }

  function AsOutputs(address: seq<bv8>, change: Result<Coins, Error>): (r: Result<seq<TxOut>, Error>) {
    if change.Ok? then Ok([TxOut(address, change.value)]) else Err(change.error)
  }

  // ----- the builder

  class TxBuilder {
    var inputs: seq<(TxoPointer, Coins)>
    var outputs: seq<TxOut>

    constructor ()
      ensures inputs == [] && outputs == []
    {
      inputs, outputs := [], [];
    }

    method AddInput(ptr: TxoPointer, value: Coins)
      modifies this`inputs
      ensures inputs == old(inputs) + [(ptr, value)]
    {
      inputs := inputs + [(ptr, value)];
    }

    method AddOutputValue(o: TxOut)
      modifies this`outputs
      ensures outputs == old(outputs) + [o]
    {
      outputs := outputs + [o];
    }

    method ApplyPolicyWith(address: seq<bv8>, leftover: Coins) returns (outs: seq<TxOut>)
      modifies this`outputs
      ensures outs == [TxOut(address, leftover)] && outputs == With(old(outputs), address, leftover)
    {
      var txout := TxOut(address, leftover);
      AddOutputValue(txout);
      outs := [txout];
    }

    /**
     Give the leftover coins to a change output.

     The search ends, and a change output that is added is affordable. For a fee that never falls as the transaction
     grows, the outcome is fixed by three balances: without a change output, with the smallest one, and with the
     greatest one it tries. The change is then the greatest affordable one, except that it is one coin short when it
     could have been the whole leftover.
     */
    method AddOutputPolicy(f: FeeAlgorithm, address: seq<bv8>) returns (r: Result<seq<TxOut>, Error>)
      modifies this`outputs
      ensures var s := Search(f, inputs, old(outputs), address);
              var b := Balance(f, inputs, old(outputs));
              && (b.Err? ==> r == Err(b.error))
              && (b.Ok? && b.value.Zero? ==> r == Ok([]))
              && (b.Ok? && b.value.Negative? ==> r == Err(NotEnoughTotalInput))
              && (b.Ok? && b.value.Positive? ==>
                    && (s.At(1).Err? ==> r == Err(s.At(1).error))
                    && (s.At(1).Ok? && s.At(1).value.Negative? ==> r == Err(OutputPolicyNotEnoughCoins(b.value.c)))
                    && (s.Affordable(1) ==> exists c :: Found(s, b.value.c, c) && r == AsOutputs(address, c)))
      ensures r.Ok? ==> outputs == old(outputs) + r.value
      ensures r.Err? ==> outputs == old(outputs)
    {
      var b := Balance(f, inputs, outputs);
      if b.Err? { return Err(b.error); }
      match b.value
      case Zero =>
        return Ok([]);
      case Negative(_) =>
        return Err(NotEnoughTotalInput);
      case Positive(max) =>
        var s := Search(f, inputs, outputs, address);
        var unit := s.At(1);
        if unit.Err? { return Err(unit.error); }
        if unit.value.Negative? { return Err(OutputPolicyNotEnoughCoins(max)); }
        var out := SearchChange(s, max);
        assert Found(s, max, out);
        if out.Err? { return Err(out.error); }
        var outs := ApplyPolicyWith(address, out.value);
        r := Ok(outs);
    }
  }

  /** The change is the greatest affordable one, or one coin less than a leftover that is itself affordable. */
  ghost predicate IsChange(s: Search, max: Coins, v: Coins) {
    if max > 1 && s.At(max) == Ok(Coin.Zero) then v + 1 == max else s.Greatest(v)
  }

  /** Values that the search may still return: below the bound, which is the leftover or known to be too much. */
  ghost predicate Between(s: Search, max: Coins, v: Coins, bound: Coins) {
    && bound <= max
    && (v < bound || v == bound == 1)
    && (max == 1 ==> v == 1 && s.At(1) == Ok(Coin.Zero))
    && (bound == max || (s.At(bound).Ok? && s.SlackAt(bound) < 0))
  }

  ghost predicate Searching(s: Search, max: Coins) {
    s.Valid() && Balance(s.f, s.inputs, s.outputs) == Ok(Coin.Positive(max)) && s.Affordable(1)
  }

  lemma {:induction false} StartBetween(s: Search, max: Coins)
    requires Searching(s, max)
    ensures Between(s, max, s.Start(), max) && Between(s, max, s.Probe(max), max)
  {
    s.SlackBelowLeftover(max, 1);
    BalanceIsSlack(s.f, s.inputs, s.outputs);
  }

  /** Coins are only left over at the greatest value tried when the next value is the whole leftover. */
  lemma {:induction false} PositiveAtProbe(s: Search, max: Coins)
    requires Searching(s, max) && s.At(s.Probe(max)).Ok? && s.SlackAt(s.Probe(max)) > 0
    ensures s.Probe(max) + 1 == max
  {
    StartBetween(s, max);
    var start := s.Start();
    assert s.Probe(max) == start + 1 ==> s.At(start).Ok?;
    if s.At(start).Ok? {
      s.SlackFalls(1, start);
    }
    if s.Probe(max) == start + 1 {
      s.SlackFalls(start, start + 1);
    }
  }

  /** Below a greatest value that does not overshoot, every shortfall can be taken back. */
  lemma {:induction false} CanTakeBack(s: Search, max: Coins, v: Coins)
    requires Searching(s, max) && s.At(s.Probe(max)).Ok? && !s.Overshoots(max) && v <= s.Probe(max)
    ensures s.At(v).Ok? && s.SlackAt(v) >= -(v + 1)
  {
    s.SlackFalls(v, s.Probe(max));
  }

  /** With coins to spare and the bound one above, the search is done. */
  lemma {:induction false} DoneBelowBound(s: Search, max: Coins, v: Coins)
    requires Searching(s, max) && v < max && Between(s, max, v, v + 1) && s.At(v).Ok? && s.SlackAt(v) > 0
    ensures IsChange(s, max, v)
  {
    if s.At(v + 1).Ok? {
      s.SlackBelowLeftover(max, v + 1);
    }
    if max > 1 && s.At(max) == Ok(Coin.Zero) {
      s.SlackFalls(v + 1, max);
    } else {
      s.GreatestBelow(v, v + 1);
    }
  }

  /** A perfect match is the greatest affordable change, and never one short of the leftover. */
  lemma {:induction false} DoneExactly(s: Search, max: Coins, v: Coins, bound: Coins)
    requires Searching(s, max) && Between(s, max, v, bound) && s.At(v) == Ok(Coin.Zero)
    ensures IsChange(s, max, v)
  {
    s.GreatestExact(v);
    if max > 1 && s.At(max) == Ok(Coin.Zero) {
      s.SlackFalls(v, max);
    }
  }

  /** What the search comes to: an error of the greatest value it tries, or the change. */
  ghost predicate Outcome(s: Search, max: Coins, r: Result<Coins, Error>)
    requires s.At(1).Ok?
  {
    var probe := s.Probe(max);
    if s.At(probe).Err? then r == Err(s.At(probe).error)
    else if s.Overshoots(max) then r == Err(CoinError(Coin.CoinError.Negative))
    else r.Ok? && IsChange(s, max, r.value)
  }

  /** What the search promises: for every fee, and more for a fee that never falls. */
  ghost predicate Found(s: Search, max: Coins, r: Result<Coins, Error>) {
    && (r.Ok? ==> Settled(s, max, r.value))
    && (r.Err? ==> SearchError(s, r.error))
    && (s.Valid() && s.At(1).Ok? ==> Outcome(s, max, r))
  }

  /** The state of the search. Until the greatest value has been tried it stands at the start or at that value. */
  ghost predicate State(s: Search, max: Coins, v: Coins, bound: Coins, probed: bool)
    requires s.At(1).Ok?
  {
    var probe := s.Probe(max);
    && v <= probe && Between(s, max, v, bound)
    && (probed ==> s.At(probe).Ok? && !s.Overshoots(max))
    && (!probed ==> bound == max && (v == s.Start() || v == probe))
  }

  lemma {:induction false} ErrorStep(s: Search, max: Coins, v: Coins, bound: Coins, probed: bool)
    requires Searching(s, max) && State(s, max, v, bound, probed) && s.At(v).Err?
    ensures Outcome(s, max, Err(s.At(v).error))
  {
    if probed { CanTakeBack(s, max, v); }
  }

  lemma {:induction false} ZeroStep(s: Search, max: Coins, v: Coins, bound: Coins, probed: bool)
    requires Searching(s, max) && State(s, max, v, bound, probed) && s.At(v) == Ok(Coin.Zero)
    ensures Outcome(s, max, Ok(v))
  {
    DoneExactly(s, max, v, bound);
  }

  lemma {:induction false} PositiveStep(s: Search, max: Coins, v: Coins, bound: Coins, probed: bool)
    requires Searching(s, max) && State(s, max, v, bound, probed) && s.At(v).Ok? && s.At(v).value.Positive?
    ensures v < bound
    ensures v + 1 == bound ==> Outcome(s, max, Ok(v))
    ensures v + 1 < bound ==> State(s, max, v + 1, bound, probed)
  {
    if v == s.Probe(max) { PositiveAtProbe(s, max); }
    if v + 1 == bound { DoneBelowBound(s, max, v); }
  }

  lemma {:induction false} NegativeStep(s: Search, max: Coins, v: Coins, bound: Coins, probed: bool, x: Coins,
                                        less: int)
    requires Searching(s, max) && State(s, max, v, bound, probed) && s.At(v) == Ok(Coin.CoinDiff.Negative(x))
    requires less == v - (if x > 1 then x - 1 else 1)
    ensures v < bound
    ensures less < 0 ==> Outcome(s, max, Err(CoinError(Coin.CoinError.Negative)))
    ensures less >= 0 ==> less < v && State(s, max, less, v, true)
  {
    if probed { CanTakeBack(s, max, v); }
    if v == 0 { s.SlackFalls(0, 1); }
  }

  /**
   Whatever the fee does, a change that is found is affordable, and it is exact, one below the leftover, or one below
   a value that is too much.
   */
  ghost predicate Settled(s: Search, max: Coins, v: Coins) {
    && s.Affordable(v)
    && (s.SlackAt(v) == 0 || v + 1 == max || (v < Coin.MAX_COIN && s.At(v + 1).Ok? && s.SlackAt(v + 1) < 0))
  }

  /** An error of the search is the error of a balance it tried, or of the arithmetic on the change. */
  ghost predicate SearchError(s: Search, e: Error) {
    e.CoinError? || exists v: Coins :: s.At(v) == Err(e)
  }

  /** The bound is the leftover or known to be too much, once the search stands below it. */
  ghost predicate BoundKnown(s: Search, max: Coins, v: Coins, bound: Coins) {
    v < bound ==> bound == max || (s.At(bound).Ok? && s.SlackAt(bound) < 0)
  }

  /** The state of the search, for a fee that never falls. */
  ghost predicate Tracked(s: Search, max: Coins, v: Coins, bound: Coins, probed: bool)
    requires s.At(1).Ok?
  {
    s.Valid() ==> State(s, max, v, bound, probed)
  }

  /** What calls for a search: coins are left over, and the smallest change is affordable. */
  ghost predicate Wanted(s: Search, max: Coins) {
    s.Affordable(1) && Balance(s.f, s.inputs, s.outputs) == Ok(Coin.Positive(max))
  }

  lemma {:induction false} TrackedError(s: Search, max: Coins, v: Coins, bound: Coins, probed: bool)
    requires Wanted(s, max) && Tracked(s, max, v, bound, probed) && s.At(v).Err?
    ensures Found(s, max, Err(s.At(v).error))
  {
    if s.Valid() { ErrorStep(s, max, v, bound, probed); }
  }

  lemma {:induction false} TrackedZero(s: Search, max: Coins, v: Coins, bound: Coins, probed: bool)
    requires Wanted(s, max) && Tracked(s, max, v, bound, probed) && s.At(v) == Ok(Coin.Zero)
    ensures Found(s, max, Ok(v))
  {
    if s.Valid() { ZeroStep(s, max, v, bound, probed); }
  }

  lemma {:induction false} TrackedPositive(s: Search, max: Coins, v: Coins, bound: Coins, probed: bool)
    requires Wanted(s, max) && Tracked(s, max, v, bound, probed) && BoundKnown(s, max, v, bound)
    requires s.At(v).Ok? && s.At(v).value.Positive?
    ensures v == Coin.MAX_COIN ==> Found(s, max, Err(CoinError(Coin.OutOfBound(v + 1))))
    ensures v + 1 == bound ==> Found(s, max, Ok(v))
    ensures v < Coin.MAX_COIN && v + 1 != bound ==>
              Tracked(s, max, v + 1, bound, probed) && BoundKnown(s, max, v + 1, bound)
  {
    if s.Valid() { PositiveStep(s, max, v, bound, probed); }
  }

  lemma {:induction false} TrackedNegative(s: Search, max: Coins, v: Coins, bound: Coins, probed: bool, x: Coins)
    requires Wanted(s, max) && Tracked(s, max, v, bound, probed) && s.At(v) == Ok(Coin.CoinDiff.Negative(x))
    ensures var less := v - (if x > 1 then x - 1 else 1);
            && (less < 0 ==> Found(s, max, Err(CoinError(Coin.CoinError.Negative))))
            && (less >= 0 ==> Tracked(s, max, less, v, true) && BoundKnown(s, max, less, v))
  {
    if s.Valid() { NegativeStep(s, max, v, bound, probed, x, v - (if x > 1 then x - 1 else 1)); }
  }

  /**
   The search for the change to give back. It ends for every fee: above the bound it only climbs, and from the first
   shortfall on it stays below a bound that only falls.
   */
  method SearchChange(s: Search, max: Coins) returns (r: Result<Coins, Error>)
    requires Wanted(s, max)
    ensures Found(s, max, r)
  {
    var outTotalMax: Coins := max;
    var outTotal: Coins := s.Start();
    ghost var probed := false;
    if s.Valid() { StartBetween(s, max); }
    while true
      invariant Tracked(s, max, outTotal, outTotalMax, probed) && BoundKnown(s, max, outTotal, outTotalMax)
      decreases outTotal >= outTotalMax, outTotalMax,
                if outTotal < outTotalMax then outTotalMax - outTotal else Coin.MAX_COIN - outTotal
    {
      var b := s.At(outTotal);
      if b.Err? {
        TrackedError(s, max, outTotal, outTotalMax, probed);
        return Err(b.error);
      }
      match b.value
      case Zero =>
        TrackedZero(s, max, outTotal, outTotalMax, probed);
        return Ok(outTotal);
      case Positive(_) =>
        TrackedPositive(s, max, outTotal, outTotalMax, probed);
        var next := FromCoin(Coin.Add(outTotal, 1));
        if next.Err? { return Err(next.error); }
        if next.value == outTotalMax {
          return Ok(outTotal);
        }
        outTotal := next.value;
      case Negative(x) =>
        TrackedNegative(s, max, outTotal, outTotalMax, probed, x);
        outTotalMax := outTotal;
        var less := FromCoin(Coin.Sub(outTotal, if x > 1 then x - 1 else 1));
        if less.Err? { return Err(less.error); }
        outTotal, probed := less.value, true;
    }
  }
}
