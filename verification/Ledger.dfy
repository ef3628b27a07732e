/**
 The ledger (chain-impl-mockchain/src/ledger.rs): new and legacy unspent outputs and accounts, changed by
 transactions. Signature checks, delegation and settings are parameters.
 */
module Ledger {
  import opened Wrappers
  import opened Values
  import opened Bytes
  import opened SpendingMessages
  import Accounts
  import Utxos

  type TxId = Utxos.TxId

  datatype Discrimination = Production | Test

  datatype Kind = Single(pk: nat) | Group(pk: nat, account: nat) | Account(id: Accounts.Identifier)

  datatype Address = Address(discrimination: Discrimination, kind: Kind) {
    function PublicKey(): (k: nat) {
      match kind
      case Single(pk) => pk
      case Group(pk, _) => pk
      case Account(id) => id
    }
  }

  type Output = Utxos.Output<Address>

  datatype Input = UtxoInput(tid: TxId, index: Utxos.Index, declared: Value)
                 | AccountInput(id: Accounts.Identifier, amount: Value)
  {
    function Value(): (v: Value) {
      match this
      case UtxoInput(_, _, v) => v
      case AccountInput(_, v) => v
    }
  }

  datatype Witness = UtxoWitness(sig: nat) | AccountWitness(sig: nat) | OldUtxoWitness(xpub: nat, sig: nat)

  datatype Transaction = Transaction(id: TxId, inputs: seq<Input>, outputs: seq<Output>, witnesses: seq<Witness>)

  datatype ConfigParam = Block0Date(date: nat) | DiscriminationParam(discrimination: Discrimination)
                       | ConsensusVersion(version: nat)

  /** Legacy outputs that exist from the start. */
  datatype Declaration = Declaration(id: TxId, outputs: seq<Utxos.Output<nat>>)

  datatype Message = Initial(params: seq<ConfigParam>) | OldUtxoDeclaration(decl: Declaration)
                   | Transfer(tx: Transaction) | Update(proposal: nat) | Certificate(certTx: Transaction, cert: nat)

  /** The checks and state changes that are not part of this model; the message builder is in two versions. */
  datatype Env = Env(verifyUtxo: (nat, nat, TxId) -> bool,
                     verifyOld: (nat, nat, TxId) -> bool,
                     oldAddressFromXpub: (nat, nat) -> bool,
                     builder: Builder,
                     verifyAccount: (nat, Accounts.Identifier, seq<Byte>) -> bool,
                     verifyCertificate: nat -> bool,
                     applyDelegation: (nat, nat) -> Option<nat>,
                     applyUpdate: (nat, nat) -> nat,
                     allowAccountCreation: nat -> bool)

  datatype Ledger = Ledger(utxos: Utxos.Ledger<Address>, oldutxos: Utxos.Ledger<nat>, accounts: Accounts.Ledger,
                           settings: nat, delegation: nat, discrimination: Discrimination, chainLength: nat)

  datatype Error = Panic | TransactionHasNoInput | NotEnoughSignatures(inputs: nat, witnesses: nat)
                 | UtxoValueNotMatching(declared: Value, actual: Value)
                 | UtxoErr(utxoError: Utxos.UtxoError) | AccountErr(accountError: Accounts.LedgerError)
                 | UtxoInvalidSignature | OldUtxoInvalidSignature | OldUtxoInvalidPublicKey | AccountInvalidSignature
                 | UtxoInputsTotal(valueError: ValueError) | UtxoOutputsTotal(valueError: ValueError)
                 | NotBalanced(totalInput: Value, totalOutput: Value)
                 | ZeroOutput | InvalidDiscrimination | ExpectingAccountWitness | ExpectingUtxoWitness
                 | Block0OnlyMessageReceived | CertificateInvalidSignature | DelegationErr
                 | Block0TransactionHasInput | Block0TransactionHasOutput | Block0TransactionHasWitnesses
                 | Block0InitialMessageMissing | Block0InitialMessageNoConsensus | Block0UtxoTotalValueTooBig
                 | ExpectingInitialMessage

  // ----- inputs

  function InputUtxoVerify(env: Env, l: Ledger, id: TxId, tid: TxId, index: Utxos.Index, declared: Value, w: Witness)
    : (r: Result<Ledger, Error>)
  {
    match w
    case AccountWitness(_) => Err(ExpectingUtxoWitness)
    case OldUtxoWitness(xpub, sig) =>
      (match Utxos.Remove(l.oldutxos, tid, index)
       case Err(e) => Err(UtxoErr(e))
       case Ok((rest, o)) =>
         if declared != o.value then Err(UtxoValueNotMatching(declared, o.value))
         else if env.oldAddressFromXpub(o.address, xpub) then Err(OldUtxoInvalidPublicKey)
         else if !env.verifyOld(sig, xpub, id) then Err(OldUtxoInvalidSignature)
         else Ok(l.(oldutxos := rest)))
    case UtxoWitness(sig) =>
      match Utxos.Remove(l.utxos, tid, index)
      case Err(e) => Err(UtxoErr(e))
      case Ok((rest, o)) =>
        if declared != o.value then Err(UtxoValueNotMatching(declared, o.value))
        else if !env.verifyUtxo(sig, o.address.PublicKey(), id) then Err(UtxoInvalidSignature)
        else Ok(l.(utxos := rest))
  }

  function InputAccountVerify(env: Env, accounts: Accounts.Ledger, id: TxId, account: Accounts.Identifier, v: Value,
                              w: Witness)
    : (r: Result<Accounts.Ledger, Error>)
  {
    match Accounts.RemoveValue(accounts, account, v)
    case Err(e) => Err(AccountErr(e))
    case Ok((rest, counter)) =>
      match w
      case AccountWitness(sig) =>
        (match env.builder.Build(id, counter)
         case None => Err(Panic)
         case Some(message) =>
           if env.verifyAccount(sig, account, message) then Ok(rest) else Err(AccountInvalidSignature))
      case _ => Err(ExpectingAccountWitness)
  }

  function ApplyInput(env: Env, l: Ledger, id: TxId, input: Input, w: Witness): (r: Result<Ledger, Error>) {
    match input
    case UtxoInput(tid, index, v) => InputUtxoVerify(env, l, id, tid, index, v, w)
    case AccountInput(account, v) =>
      match InputAccountVerify(env, l.accounts, id, account, v, w)
      case Err(e) => Err(e)
      case Ok(rest) => Ok(l.(accounts := rest))
  }

  function ApplyInputs(env: Env, l: Ledger, id: TxId, inputs: seq<Input>, ws: seq<Witness>): (r: Result<Ledger, Error>)
    requires |inputs| == |ws|
    decreases |inputs|
  {
    if inputs == [] then Ok(l)
    else
      match ApplyInput(env, l, id, inputs[0], ws[0])
      case Err(e) => Err(e)
      case Ok(l') => ApplyInputs(env, l', id, inputs[1..], ws[1..])
  }

  // ----- outputs

  /** An output to an account adds to it, or creates it where that is allowed. */
  function ApplyAccountOutput(accounts: Accounts.Ledger, allowCreation: bool, id: Accounts.Identifier, v: Value)
    : (r: Result<Accounts.Ledger, Error>)
  {
    match Accounts.AddValue(accounts, id, v)
    case Ok(a) => Ok(a)
    case Err(NonExistent) =>
      if allowCreation then
        match Accounts.AddAccount(accounts, id, v)
        case Ok(a) => Ok(a)
        case Err(e) => Err(AccountErr(e))
      else Err(AccountErr(Accounts.NonExistent))
    case Err(e) => Err(AccountErr(e))
  }

  datatype OutputState = OutputState(accounts: Accounts.Ledger, pending: seq<Utxos.Indexed<Address>>)

  function ApplyOutput(s: OutputState, l: Ledger, allowCreation: bool, index: Utxos.Index, o: Output)
    : (r: Result<OutputState, Error>)
  {
    if o.value == 0 then Err(ZeroOutput)
    else if o.address.discrimination != l.discrimination then Err(InvalidDiscrimination)
    else
      match o.address.kind
      case Account(id) =>
        (match ApplyAccountOutput(s.accounts, allowCreation, id, o.value)
         case Err(e) => Err(e)
         case Ok(a) => Ok(s.(accounts := a)))
      case _ => Ok(s.(pending := s.pending + [Utxos.Indexed(index, o)]))
  }

  /** The outputs from position i on. */
  function ApplyOutputs(s: OutputState, l: Ledger, allowCreation: bool, outputs: seq<Output>, i: nat)
    : (r: Result<OutputState, Error>)
    requires i <= |outputs| <= 255
    decreases |outputs| - i
  {
    if i == |outputs| then Ok(s)
    else
      match ApplyOutput(s, l, allowCreation, i, outputs[i])
      case Err(e) => Err(e)
      case Ok(s') => ApplyOutputs(s', l, allowCreation, outputs, i + 1)
  }

  function ApplyTransactionOutput(l: Ledger, allowCreation: bool, id: TxId,
                                  outputs: seq<Output>): (r: Result<Ledger, Error>)
    requires |outputs| <= 255
  {
    match ApplyOutputs(OutputState(l.accounts, []), l, allowCreation, outputs, 0)
    case Err(e) => Err(e)
    case Ok(s) =>
      match Utxos.Add(l.utxos, id, s.pending)
      case Err(e) => Err(UtxoErr(e))
      case Ok(u) => Ok(l.(utxos := u, accounts := s.accounts))
  }

  // ----- transactions and blocks

  function InputValues(inputs: seq<Input>): (vs: seq<Value>)
    ensures |vs| == |inputs|
  {
    seq(|inputs|, i requires 0 <= i < |inputs| => inputs[i].Value())
  }

  function OutputValues(outputs: seq<Output>): (vs: seq<Value>)
    ensures |vs| == |outputs|
  {
    seq(|outputs|, i requires 0 <= i < |outputs| => outputs[i].value)
  }

  /** What comparing two sums reports. */
  function BalanceError(ins: seq<Value>, outs: seq<Value>): (e: Option<Error>) {
    if Plain(ins) > MAX then Some(UtxoInputsTotal(Overflow))
    else if Plain(outs) > MAX then Some(UtxoOutputsTotal(Overflow))
    else if Plain(ins) != Plain(outs) then Some(NotBalanced(Plain(ins), Plain(outs)))
    else None
  }

  function ApplyTransaction(env: Env, l: Ledger, allowCreation: bool, tx: Transaction): (r: Result<Ledger, Error>) {
    if |tx.inputs| >= 255 || |tx.outputs| >= 255 || |tx.witnesses| >= 255 then Err(Panic)
    else if tx.inputs == [] then Err(TransactionHasNoInput)
    else if |tx.inputs| != |tx.witnesses| then Err(NotEnoughSignatures(|tx.inputs|, |tx.witnesses|))
    else
      match ApplyInputs(env, l, tx.id, tx.inputs, tx.witnesses)
      case Err(e) => Err(e)
      case Ok(l') =>
        // both totals are those of the inputs
        var unbalanced := BalanceError(InputValues(tx.inputs), InputValues(tx.inputs));
        if unbalanced.Some? then Err(unbalanced.value)
        else ApplyTransactionOutput(l', allowCreation, tx.id, tx.outputs)
  }

  function ApplyMessage(env: Env, l: Ledger, allowCreation: bool, m: Message): (r: Result<Ledger, Error>) {
    match m
    case Initial(_) => Err(Block0OnlyMessageReceived)
    case OldUtxoDeclaration(_) => Err(Block0OnlyMessageReceived)
    case Transfer(tx) => ApplyTransaction(env, l, allowCreation, tx)
    case Update(p) => Ok(l.(settings := env.applyUpdate(l.settings, p)))
    case Certificate(tx, cert) =>
      if !env.verifyCertificate(cert) then Err(CertificateInvalidSignature)
      else
        match ApplyTransaction(env, l, allowCreation, tx)
        case Err(e) => Err(e)
        case Ok(l') =>
          match env.applyDelegation(l'.delegation, cert)
          case None => Err(DelegationErr)
          case Some(d) => Ok(l'.(delegation := d))
  }

  function ApplyMessages(env: Env, l: Ledger, allowCreation: bool, ms: seq<Message>): (r: Result<Ledger, Error>)
    decreases |ms|
  {
    if ms == [] then Ok(l)
    else
      match ApplyMessage(env, l, allowCreation, ms[0])
      case Err(e) => Err(e)
      case Ok(l') => ApplyMessages(env, l', allowCreation, ms[1..])
  }

  datatype Block = Block(allowCreation: bool, contents: seq<Message>)

  /** A block: the chain grows by one, then its messages are applied in order. */
  function AfterBlock(env: Env, l: Ledger, b: Block): (r: Result<Ledger, Error>) {
    ApplyMessages(env, l.(chainLength := l.chainLength + 1), b.allowCreation, b.contents)
  }

  // ----- the loops of the source

  method InternalApplyTransactionOutput(utxos: Utxos.Ledger<Address>, accounts: Accounts.Ledger, l: Ledger,
                                        allowCreation: bool, id: TxId, outputs: seq<Output>)
    returns (r: Result<(Utxos.Ledger<Address>, Accounts.Ledger), Error>)
    requires |outputs| <= 255 && l.utxos == utxos && l.accounts == accounts
    ensures var spec := ApplyTransactionOutput(l, allowCreation, id, outputs);
            r == if spec.Ok? then Ok((spec.value.utxos, spec.value.accounts)) else Err(spec.error)
    ensures r.Ok? ==> ApplyTransactionOutput(l, allowCreation, id, outputs) ==
                      Ok(l.(utxos := r.value.0, accounts := r.value.1))
  {
    var s := OutputState(accounts, []);
    for i := 0 to |outputs|
      invariant ApplyOutputs(s, l, allowCreation, outputs, i) ==
                ApplyOutputs(OutputState(accounts, []), l, allowCreation, outputs, 0)
    {
      match ApplyOutput(s, l, allowCreation, i, outputs[i]) {
        case Err(e) => return Err(e);
        case Ok(next) => s := next;
      }
    }
    match Utxos.Add(utxos, id, s.pending) {
      case Err(e) => return Err(UtxoErr(e));
      case Ok(u) => return Ok((u, s.accounts));
    }
  }

  method CheckBalance(ins: seq<Value>, outs: seq<Value>) returns (e: Option<Error>)
    ensures e == BalanceError(ins, outs)
  {
    var totalInput := SumValues(ins);
    if totalInput.Err? {
      return Some(UtxoInputsTotal(totalInput.error));
    }
    var totalOutput := SumValues(outs);
    if totalOutput.Err? {
      return Some(UtxoOutputsTotal(totalOutput.error));
    }
    if totalInput.value != totalOutput.value {
      return Some(NotBalanced(totalInput.value, totalOutput.value));
    }
    return None;
  }

  method InternalApplyTransaction(env: Env, ledger: Ledger, allowCreation: bool,
                                  tx: Transaction) returns (r: Result<Ledger, Error>)
    ensures r == ApplyTransaction(env, ledger, allowCreation, tx)
  {
    if |tx.inputs| >= 255 || |tx.outputs| >= 255 || |tx.witnesses| >= 255 {
      return Err(Panic);
    }
    if |tx.inputs| == 0 {
      return Err(TransactionHasNoInput);
    }
    if |tx.inputs| != |tx.witnesses| {
      return Err(NotEnoughSignatures(|tx.inputs|, |tx.witnesses|));
    }
    var l := ledger;
    for i := 0 to |tx.inputs|
      invariant ApplyInputs(env, l, tx.id, tx.inputs[i..], tx.witnesses[i..]) ==
                ApplyInputs(env, ledger, tx.id, tx.inputs, tx.witnesses)
    {
      assert tx.inputs[i..][1..] == tx.inputs[i + 1..] && tx.witnesses[i..][1..] == tx.witnesses[i + 1..];
      match ApplyInput(env, l, tx.id, tx.inputs[i], tx.witnesses[i]) {
        case Err(e) => return Err(e);
        case Ok(next) => l := next;
      }
    }
    var unbalanced := CheckBalance(InputValues(tx.inputs), InputValues(tx.inputs));
    if unbalanced.Some? {
      return Err(unbalanced.value);
    }
    var out := InternalApplyTransactionOutput(l.utxos, l.accounts, l, allowCreation, tx.id, tx.outputs);
    if out.Err? {
      return Err(out.error);
    }
    return Ok(l.(utxos := out.value.0, accounts := out.value.1));
  }

  method ApplyBlock(env: Env, ledger: Ledger, allowCreation: bool,
                    contents: seq<Message>) returns (r: Result<Ledger, Error>)
    ensures r == AfterBlock(env, ledger, Block(allowCreation, contents))
  {
    r := ApplyContents(env, ledger.(chainLength := ledger.chainLength + 1), allowCreation, contents);
  }

  method ApplyContents(env: Env, start: Ledger, allowCreation: bool,
                       contents: seq<Message>) returns (r: Result<Ledger, Error>)
    ensures r == ApplyMessages(env, start, allowCreation, contents)
  {
    var l := start;
    ghost var all := ApplyMessages(env, start, allowCreation, contents);
    for i := 0 to |contents|
      invariant ApplyMessages(env, l, allowCreation, contents[i..]) == all
    {
      MessagesStep(env, l, allowCreation, contents, i);
      var next := ApplyMessage(env, l, allowCreation, contents[i]);
      if next.Err? {
        return next;
      }
      l := next.value;
    }
    return Ok(l);
  }

  lemma {:induction false} MessagesStep(env: Env, l: Ledger, allowCreation: bool, ms: seq<Message>, i: nat)
    requires i < |ms|
    ensures ApplyMessages(env, l, allowCreation, ms[i..]) ==
            match ApplyMessage(env, l, allowCreation, ms[i])
            case Err(e) => Err(e)
            case Ok(next) => ApplyMessages(env, next, allowCreation, ms[i + 1..])
  {
    assert ms[i..][0] == ms[i] && ms[i..][1..] == ms[i + 1..];
  }
}
