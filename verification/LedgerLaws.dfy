/** What every transaction, block and run does to the value held by the ledger. */
module LedgerAccounting {
  import opened Wrappers
  import opened Values
  import opened Ledger
  import Accounts
  import Utxos

  ghost function Total(l: Ledger): (n: nat) {
    Utxos.Total(l.utxos) + Utxos.Total(l.oldutxos) + Accounts.Total(l.accounts)
  }

  lemma {:induction false} PlainCons(vs: seq<Value>)
    requires vs != []
    ensures Plain(vs) == vs[0] + Plain(vs[1..])
  {
    var n := |vs| - 1;
    if n > 0 {
      PlainCons(vs[..n]);
      assert vs[..n][1..] == vs[1..][..n - 1];
    }
  }

  // ----- inputs

  lemma {:induction false} InputTakesItsValue(env: Env, l: Ledger, id: TxId, input: Input, w: Witness)
    requires ApplyInput(env, l, id, input, w).Ok?
    ensures Total(ApplyInput(env, l, id, input, w).value) + input.Value() == Total(l)
  {
    match input
    case UtxoInput(tid, index, v) =>
      UtxoInputTakesItsValue(env, l, id, tid, index, v, w);
    case AccountInput(account, v) =>
      Accounts.RemoveValueTotal(l.accounts, account, v);
  }

  lemma {:induction false} UtxoInputTakesItsValue(env: Env, l: Ledger, id: TxId, tid: TxId, index: Utxos.Index,
                                                  declared: Value, w: Witness)
    requires InputUtxoVerify(env, l, id, tid, index, declared, w).Ok?
    ensures Total(InputUtxoVerify(env, l, id, tid, index, declared, w).value) + declared == Total(l)
  {
    if w.OldUtxoWitness? {
      Utxos.RemoveTotal(l.oldutxos, tid, index);
    } else {
      Utxos.RemoveTotal(l.utxos, tid, index);
    }
  }

  lemma {:induction false} InputsTakeTheirValues(env: Env, l: Ledger, id: TxId, inputs: seq<Input>, ws: seq<Witness>)
    requires |inputs| == |ws| && ApplyInputs(env, l, id, inputs, ws).Ok?
    ensures Total(ApplyInputs(env, l, id, inputs, ws).value) + Plain(InputValues(inputs)) == Total(l)
    decreases |inputs|
  {
    if inputs != [] {
      InputTakesItsValue(env, l, id, inputs[0], ws[0]);
      InputsTakeTheirValues(env, ApplyInput(env, l, id, inputs[0], ws[0]).value, id, inputs[1..], ws[1..]);
      PlainCons(InputValues(inputs));
      assert InputValues(inputs)[1..] == InputValues(inputs[1..]);
    }
  }

  // ----- outputs

  ghost function Held(s: OutputState): (n: nat) {
    Accounts.Total(s.accounts) + Utxos.PlainTotal(s.pending)
  }

  /** The outputs gathered so far carry distinct indices below the next one. */
  ghost predicate Numbered(s: OutputState, i: nat) {
    && Utxos.DistinctIndices(s.pending)
    && forall k :: 0 <= k < |s.pending| ==> s.pending[k].index < i
  }

  lemma {:induction false} OutputAddsItsValue(s: OutputState, l: Ledger, allowCreation: bool, i: Utxos.Index, o: Output)
    requires ApplyOutput(s, l, allowCreation, i, o).Ok? && Numbered(s, i)
    ensures Held(ApplyOutput(s, l, allowCreation, i, o).value) == Held(s) + o.value
    ensures Numbered(ApplyOutput(s, l, allowCreation, i, o).value, i + 1)
  {
    match o.address.kind
    case Account(id) =>
      if id in s.accounts {
        Accounts.AddValueTotal(s.accounts, id, o.value);
      } else {
        Accounts.AddAccountTotal(s.accounts, id, o.value);
      }
    case _ =>
      var pending := s.pending + [Utxos.Indexed(i, o)];
      assert pending[..|s.pending|] == s.pending;
  }

  lemma {:induction false} OutputsAddTheirValues(s: OutputState, l: Ledger, allowCreation: bool, outputs: seq<Output>,
                                                 i: nat)
    requires i <= |outputs| <= 255 && ApplyOutputs(s, l, allowCreation, outputs, i).Ok? && Numbered(s, i)
    ensures Held(ApplyOutputs(s, l, allowCreation, outputs, i).value) == Held(s) + Plain(OutputValues(outputs[i..]))
    ensures Utxos.DistinctIndices(ApplyOutputs(s, l, allowCreation, outputs, i).value.pending)
    decreases |outputs| - i
  {
    if i < |outputs| {
      OutputAddsItsValue(s, l, allowCreation, i, outputs[i]);
      OutputsAddTheirValues(ApplyOutput(s, l, allowCreation, i, outputs[i]).value, l, allowCreation, outputs, i + 1);
      PlainCons(OutputValues(outputs[i..]));
      assert OutputValues(outputs[i..])[1..] == OutputValues(outputs[i + 1..]);
    }
  }

  lemma {:induction false} TransactionOutputTotal(l: Ledger, allowCreation: bool, id: TxId, outputs: seq<Output>)
    requires |outputs| <= 255 && ApplyTransactionOutput(l, allowCreation, id, outputs).Ok?
    ensures Total(ApplyTransactionOutput(l, allowCreation, id, outputs).value) ==
            Total(l) + Plain(OutputValues(outputs))
  {
    var start := OutputState(l.accounts, []);
    OutputsAddTheirValues(start, l, allowCreation, outputs, 0);
    assert outputs[0..] == outputs;
    Utxos.AddTotal(l.utxos, id, ApplyOutputs(start, l, allowCreation, outputs, 0).value.pending);
  }

  // ----- transactions, blocks, runs

  /** An accepted transaction changes the total by its outputs minus its inputs. */
  lemma {:induction false} TransactionAccounting(env: Env, l: Ledger, allowCreation: bool, tx: Transaction)
    requires ApplyTransaction(env, l, allowCreation, tx).Ok?
    ensures Total(ApplyTransaction(env, l, allowCreation, tx).value) + Plain(InputValues(tx.inputs)) ==
            Total(l) + Plain(OutputValues(tx.outputs))
  {
    InputsTakeTheirValues(env, l, tx.id, tx.inputs, tx.witnesses);
    var l' := ApplyInputs(env, l, tx.id, tx.inputs, tx.witnesses).value;
    TransactionOutputTotal(l', allowCreation, tx.id, tx.outputs);
  }

  /** What a message adds to the total, if it is accepted. */
  function NetOfMessage(m: Message): (n: int) {
    match m
    case Transfer(tx) => Plain(OutputValues(tx.outputs)) - Plain(InputValues(tx.inputs))
    case Certificate(tx, _) => Plain(OutputValues(tx.outputs)) - Plain(InputValues(tx.inputs))
    case _ => 0
  }

  function Net(ms: seq<Message>): (n: int) {
    if ms == [] then 0 else NetOfMessage(ms[0]) + Net(ms[1..])
  }

  lemma {:induction false} MessagesAccounting(env: Env, l: Ledger, allowCreation: bool, ms: seq<Message>)
    requires ApplyMessages(env, l, allowCreation, ms).Ok?
    ensures Total(ApplyMessages(env, l, allowCreation, ms).value) == Total(l) + Net(ms)
    decreases |ms|
  {
    if ms != [] {
      match ms[0] {
        case Transfer(tx) => TransactionAccounting(env, l, allowCreation, tx);
        case Certificate(tx, _) => TransactionAccounting(env, l, allowCreation, tx);
        case Update(_) =>
      }
      MessagesAccounting(env, ApplyMessage(env, l, allowCreation, ms[0]).value, allowCreation, ms[1..]);
    }
  }

  lemma {:induction false} BlockAccounting(env: Env, l: Ledger, b: Block)
    requires AfterBlock(env, l, b).Ok?
    ensures Total(AfterBlock(env, l, b).value) == Total(l) + Net(b.contents)
  {
    MessagesAccounting(env, l.(chainLength := l.chainLength + 1), b.allowCreation, b.contents);
  }

  /** Blocks applied one after the other, each with the parameters it was given. */
  function ApplyRun(env: Env, l: Ledger, blocks: seq<Block>): (r: Result<Ledger, Error>)
    decreases |blocks|
  {
    if blocks == [] then Ok(l)
    else
      match AfterBlock(env, l, blocks[0])
      case Err(e) => Err(e)
      case Ok(l') => ApplyRun(env, l', blocks[1..])
  }

  function NetOfRun(blocks: seq<Block>): (n: int) {
    if blocks == [] then 0 else Net(blocks[0].contents) + NetOfRun(blocks[1..])
  }

  /** Over any run, the total changes by exactly what the accepted transactions create and consume. */
  lemma {:induction false} RunAccounting(env: Env, l: Ledger, blocks: seq<Block>)
    requires ApplyRun(env, l, blocks).Ok?
    ensures Total(ApplyRun(env, l, blocks).value) == Total(l) + NetOfRun(blocks)
    decreases |blocks|
  {
    if blocks != [] {
      BlockAccounting(env, l, blocks[0]);
      RunAccounting(env, AfterBlock(env, l, blocks[0]).value, blocks[1..]);
    }
  }

  // ----- the check that is meant to enforce conservation

  /** The error for an unbalanced transaction is never reported. */
  lemma {:induction false} NeverUnbalanced(env: Env, l: Ledger, allowCreation: bool, tx: Transaction, i: Value,
                                           o: Value)
    ensures ApplyTransaction(env, l, allowCreation, tx) != Err(NotBalanced(i, o))
  {
    if |tx.inputs| == |tx.witnesses| && |tx.inputs| < 255 && |tx.outputs| < 255 {
      InputsNeverUnbalanced(env, l, tx.id, tx.inputs, tx.witnesses, i, o);
      match ApplyInputs(env, l, tx.id, tx.inputs, tx.witnesses)
      case Err(_) =>
      case Ok(l') => OutputsNeverUnbalanced(OutputState(l'.accounts, []), l', allowCreation, tx.outputs, 0, i, o);
    }
  }

  lemma {:induction false} InputNeverUnbalanced(env: Env, l: Ledger, id: TxId, input: Input, w: Witness, i: Value,
                                                o: Value)
    ensures ApplyInput(env, l, id, input, w) != Err(NotBalanced(i, o))
  {
  }

  lemma {:induction false} InputsNeverUnbalanced(env: Env, l: Ledger, id: TxId, inputs: seq<Input>, ws: seq<Witness>,
                                                 i: Value, o: Value)
    requires |inputs| == |ws|
    ensures ApplyInputs(env, l, id, inputs, ws) != Err(NotBalanced(i, o))
    decreases |inputs|
  {
    if inputs != [] {
      InputNeverUnbalanced(env, l, id, inputs[0], ws[0], i, o);
      match ApplyInput(env, l, id, inputs[0], ws[0])
      case Err(_) =>
      case Ok(l') => InputsNeverUnbalanced(env, l', id, inputs[1..], ws[1..], i, o);
    }
  }

  lemma {:induction false} OutputsNeverUnbalanced(s: OutputState, l: Ledger, allow: bool, outputs: seq<Output>,
                                                  k: nat, i: Value, o: Value)
    requires k <= |outputs| <= 255
    ensures ApplyOutputs(s, l, allow, outputs, k) != Err(NotBalanced(i, o))
    decreases |outputs| - k
  {
    if k < |outputs| {
      match ApplyOutput(s, l, allow, k, outputs[k])
      case Err(_) =>
      case Ok(s') => OutputsNeverUnbalanced(s', l, allow, outputs, k + 1, i, o);
    }
  }

  /** So value is conserved exactly by the accepted transactions whose sums are equal. */
  lemma {:induction false} ConservedIffBalanced(env: Env, l: Ledger, allowCreation: bool, tx: Transaction)
    requires ApplyTransaction(env, l, allowCreation, tx).Ok?
    ensures Total(ApplyTransaction(env, l, allowCreation, tx).value) == Total(l) <==>
            Plain(InputValues(tx.inputs)) == Plain(OutputValues(tx.outputs))
  {
    TransactionAccounting(env, l, allowCreation, tx);
  }

  /** Spending an output of one coin into one of five is accepted, with a valid signature. */
  lemma {:induction false} ValueFromNothing(env: Env, id: TxId, tid: TxId)
    requires id != tid && env.verifyUtxo(7, 3, id)
    ensures var address := Address(Test, Single(3));
            var l := Ledger(map[tid := map[0 := Utxos.Output(address, 1)]], map[], map[], 0, 0, Test, 0);
            var tx := Transaction(id, [UtxoInput(tid, 0, 1)], [Utxos.Output(address, 5)], [UtxoWitness(7)]);
            ApplyTransaction(env, l, false, tx).Ok? && Total(ApplyTransaction(env, l, false, tx).value) == Total(l) + 4
  {
    var address := Address(Test, Single(3));
    var l := Ledger(map[tid := map[0 := Utxos.Output(address, 1)]], map[], map[], 0, 0, Test, 0);
    var tx := Transaction(id, [UtxoInput(tid, 0, 1)], [Utxos.Output(address, 5)], [UtxoWitness(7)]);
    assert Utxos.Remove(l.utxos, tid, 0).Ok?;
    var l' := ApplyInput(env, l, id, tx.inputs[0], tx.witnesses[0]).value;
    assert ApplyInputs(env, l, id, tx.inputs, tx.witnesses) == Ok(l') && id !in l'.utxos;
    assert InputValues(tx.inputs) == [1] && OutputValues(tx.outputs) == [5];
    assert Plain([1]) == 1 && Plain([5]) == 5;
    OneOutput(l', id, Utxos.Output(address, 5));
    TransactionAccounting(env, l, false, tx);
  }

  lemma {:induction false} OneOutput(l: Ledger, id: TxId, o: Output)
    requires id !in l.utxos && o.value > 0 && o.address.discrimination == l.discrimination && o.address.kind.Single?
    ensures ApplyTransactionOutput(l, false, id, [o]).Ok?
  {
    var start := OutputState(l.accounts, []);
    var next := start.(pending := [Utxos.Indexed(0, o)]);
    assert ApplyOutput(start, l, false, 0, o) == Ok(next) by {
      assert start.pending + [Utxos.Indexed(0, o)] == next.pending;
    }
    assert ApplyOutputs(next, l, false, [o], 1) == Ok(next);
  }
}
