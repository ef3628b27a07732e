/** Values that are checked on overflow (chain-impl-mockchain/src/value.rs). */
module Values {
  import opened Wrappers

  const MAX: nat := 0xffff_ffff_ffff_ffff

  type Value = v: nat | v <= MAX

  datatype ValueError = NegativeAmount | Overflow

  function Add(a: Value, b: Value): (r: Result<Value, ValueError>) {
    if a + b <= MAX then Ok(a + b) else Err(Overflow)
  }

  function Sub(a: Value, b: Value): (r: Result<Value, ValueError>) {
    if b <= a then Ok(a - b) else Err(NegativeAmount)
  }

  function Plain(values: seq<Value>): (n: nat) {
    if values == [] then 0 else Plain(values[..|values| - 1]) + values[|values| - 1]
  }

  /** The fold with an early error gives the plain sum, and overflows exactly when the plain sum does. */
  method SumValues(values: seq<Value>) returns (r: Result<Value, ValueError>)
    ensures r == if Plain(values) <= MAX then Ok(Plain(values)) else Err(Overflow)
  {
    r := Ok(0);
    for i := 0 to |values|
      invariant r == if Plain(values[..i]) <= MAX then Ok(Plain(values[..i])) else Err(Overflow)
    {
      assert values[..i + 1][..i] == values[..i];
      if r.Ok? {
        r := Add(r.value, values[i]);
      }
    }
    assert values[..|values|] == values;
  }
}

/** Accounts with a spending counter (chain-impl-mockchain/src/account.rs). */
module Accounts {
  import opened Wrappers
  import opened Values
  import opened MapSum

  const MAX_COUNTER: nat := 0xffff_ffff

  type Counter = c: nat | c <= MAX_COUNTER

  type Identifier = nat

  datatype LedgerError = NonExistent | AlreadyExists | NeedTotalWithdrawal | NonZero | ValueErr(e: ValueError)

  datatype State = State(counter: Counter, value: Value) {

    function Add(v: Value): (r: Result<State, LedgerError>) {
      match Values.Add(value, v)
      case Err(e) => Err(ValueErr(e))
      case Ok(sum) => Ok(this.(value := sum))
    }

    /** Spending takes a counter value; at the last one the account must be emptied, and then it is gone. */
    function Sub(v: Value): (r: Result<Option<State>, LedgerError>) {
      match Values.Sub(value, v)
      case Err(e) => Err(ValueErr(e))
      case Ok(rest) =>
        if counter == MAX_COUNTER then
          if rest == 0 then Ok(None) else Err(NeedTotalWithdrawal)
        else Ok(Some(State(counter + 1, rest)))
    }
  }

  type Ledger = map<Identifier, State>

  function AddAccount(l: Ledger, a: Identifier, initial: Value): (r: Result<Ledger, LedgerError>) {
    if a in l then Err(AlreadyExists) else Ok(l[a := State(0, initial)])
  }

  function RemoveAccount(l: Ledger, a: Identifier): (r: Result<Ledger, LedgerError>) {
    if a !in l then Err(NonExistent) else if l[a].value == 0 then Ok(l - {a}) else Err(NonZero)
  }

  function AddValue(l: Ledger, a: Identifier, v: Value): (r: Result<Ledger, LedgerError>) {
    if a !in l then Err(NonExistent)
    else
      match l[a].Add(v)
      case Err(e) => Err(e)
      case Ok(s) => Ok(l[a := s])
  }

  function RemoveValue(l: Ledger, a: Identifier, v: Value): (r: Result<(Ledger, Counter), LedgerError>) {
    if a !in l then Err(NonExistent)
    else
      match l[a].Sub(v)
      case Err(e) => Err(e)
      case Ok(None) => Ok((l - {a}, l[a].counter))
      case Ok(Some(s)) => Ok((l[a := s], l[a].counter))
  }

  function Balance(s: State): (n: nat) {
    s.value
  }

  ghost function Total(l: Ledger): (n: nat) {
    Sum(l, Balance)
  }

  /** What each operation does to the sum of all balances. */
  lemma {:induction false} AddAccountTotal(l: Ledger, a: Identifier, initial: Value)
    requires AddAccount(l, a, initial).Ok?
    ensures Total(AddAccount(l, a, initial).value) == Total(l) + initial
  {
    SumInsert(l, Balance, a, State(0, initial));
  }

  lemma {:induction false} RemoveAccountTotal(l: Ledger, a: Identifier)
    requires RemoveAccount(l, a).Ok?
    ensures Total(RemoveAccount(l, a).value) == Total(l)
  {
    SumRemove(l, Balance, a);
  }

  lemma {:induction false} AddValueTotal(l: Ledger, a: Identifier, v: Value)
    requires AddValue(l, a, v).Ok?
    ensures Total(AddValue(l, a, v).value) == Total(l) + v
  {
    SumReplace(l, Balance, a, l[a].Add(v).value);
  }

  lemma {:induction false} RemoveValueTotal(l: Ledger, a: Identifier, v: Value)
    requires RemoveValue(l, a, v).Ok?
    ensures Total(RemoveValue(l, a, v).value.0) + v == Total(l)
  {
    match l[a].Sub(v)
    case Ok(None) => SumRemove(l, Balance, a);
    case Ok(Some(s)) => SumReplace(l, Balance, a, s);
  }

  /** When an account disappears, it was empty after its last counter value was spent. */
  lemma {:induction false} DeletedWhenExhausted(l: Ledger, a: Identifier, v: Value)
    requires RemoveValue(l, a, v).Ok?
    ensures a !in RemoveValue(l, a, v).value.0 <==> l[a].counter == MAX_COUNTER
    ensures l[a].counter == MAX_COUNTER ==> l[a].value == v
  {
  }
}
