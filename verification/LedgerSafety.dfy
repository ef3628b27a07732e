/** No output is spent twice. */
module DoubleSpend {
  import opened Wrappers
  import opened Sequences
  import opened SpendingMessages
  import opened Values
  import opened Ledger
  import opened LedgerAccounting
  import Accounts
  import Utxos

  /** An output of the legacy or of the new ledger. */
  datatype OutRef = OutRef(legacy: bool, tid: TxId, index: Utxos.Index)

  predicate Available(l: Ledger, r: OutRef) {
    if r.legacy then Utxos.IsUnspent(l.oldutxos, r.tid, r.index) else Utxos.IsUnspent(l.utxos, r.tid, r.index)
  }

  function SpentByInput(input: Input, w: Witness): (s: seq<OutRef>) {
    match input
    case UtxoInput(tid, index, _) => [OutRef(w.OldUtxoWitness?, tid, index)]
    case AccountInput(_, _) => []
  }

  function SpentByInputs(inputs: seq<Input>, ws: seq<Witness>): (s: seq<OutRef>)
    requires |inputs| == |ws|
  {
    if inputs == [] then [] else SpentByInput(inputs[0], ws[0]) + SpentByInputs(inputs[1..], ws[1..])
  }

  /**
   From one ledger to another, the outputs in `spent` were consumed, once each, and only transactions with an
   identifier in `ids` added outputs.
   */
  ghost predicate Effect(l: Ledger, l': Ledger, spent: seq<OutRef>, ids: set<TxId>) {
    && Distinct(spent)
    && (forall r :: r in spent ==> Available(l, r) || (!r.legacy && r.tid in ids))
    && (forall r :: r in spent ==> !Available(l', r))
    && (forall r: OutRef :: r.legacy || r.tid !in ids ==> (Available(l', r) <==> Available(l, r) && r !in spent))
    && l'.utxos.Keys <= l.utxos.Keys + ids
  }

  /** Effects compose, as long as the later transactions use identifiers that are new. */
  lemma {:induction false} Compose(l0: Ledger, l1: Ledger, l2: Ledger, s1: seq<OutRef>, s2: seq<OutRef>,
                                   ids1: set<TxId>, ids2: set<TxId>)
    requires Effect(l0, l1, s1, ids1) && Effect(l1, l2, s2, ids2)
    requires ids2 !! l0.utxos.Keys && ids2 !! ids1
    ensures Effect(l0, l2, s1 + s2, ids1 + ids2)
  {
    forall r | r in s1 ensures r.legacy || r.tid !in ids2 {
      assert Available(l0, r) || (!r.legacy && r.tid in ids1);
    }
    DistinctConcat(s1, s2);
  }

  lemma {:induction false} NoEffect(l: Ledger, l': Ledger)
    requires l'.utxos == l.utxos && l'.oldutxos == l.oldutxos
    ensures Effect(l, l', [], {})
  {
  }

  /**
   What an input needs: an unspent output of the declared value and a signature by the key its address was made
   from, or enough in the account and a signature by its owner for this transaction and the account's counter.
   */
  ghost predicate Authorised(env: Env, l: Ledger, id: TxId, input: Input, w: Witness) {
    match input
    case UtxoInput(tid, index, declared) =>
      (match w
       case UtxoWitness(sig) =>
         && Utxos.IsUnspent(l.utxos, tid, index)
         && var o := l.utxos[tid][index]; o.value == declared && env.verifyUtxo(sig, o.address.PublicKey(), id)
       case OldUtxoWitness(xpub, sig) =>
         && LegacySigned(env, l, id, tid, index, declared, xpub, sig)
         && env.oldAddressFromXpub(l.oldutxos[tid][index].address, xpub)
       case AccountWitness(_) => false)
    case AccountInput(a, amount) =>
      && w.AccountWitness? && a in l.accounts && amount <= l.accounts[a].value
      && (l.accounts[a].counter == Accounts.MAX_COUNTER ==> amount == l.accounts[a].value)
      && env.verifyAccount(w.sig, a, ToSign(id, l.accounts[a].counter))
  }

  /** An unspent legacy output of the declared value, with a valid signature by some key. */
  ghost predicate LegacySigned(env: Env, l: Ledger, id: TxId, tid: TxId, index: Utxos.Index, declared: Value,
                               xpub: nat, sig: nat) {
    Utxos.IsUnspent(l.oldutxos, tid, index) && l.oldutxos[tid][index].value == declared && env.verifyOld(sig, xpub, id)
  }

  /** The inputs for which the verdict of the legacy key check matters. */
  ghost predicate LegacyDecides(env: Env, l: Ledger, id: TxId, input: Input, w: Witness) {
    && input.UtxoInput? && w.OldUtxoWitness?
    && LegacySigned(env, l, id, input.tid, input.index, input.declared, w.xpub, w.sig)
  }

  /** A signed legacy input is accepted exactly when the key is not the one of the address. */
  lemma {:induction false} LegacyAcceptedIff(env: Env, l: Ledger, id: TxId, tid: TxId, index: Utxos.Index,
                                             declared: Value, xpub: nat, sig: nat)
    requires LegacySigned(env, l, id, tid, index, declared, xpub, sig)
    ensures ApplyInput(env, l, id, UtxoInput(tid, index, declared), OldUtxoWitness(xpub, sig)).Ok? <==>
            !env.oldAddressFromXpub(l.oldutxos[tid][index].address, xpub)
  {
    Utxos.RemoveSpends(l.oldutxos, tid, index);
  }

  lemma {:induction false} UtxoAccepted(env: Env, l: Ledger, id: TxId, input: Input, w: Witness)
    requires input.UtxoInput?
    ensures (ApplyInput(env, l, id, input, w).Ok? <==> Authorised(env, l, id, input, w)) <==>
            !LegacyDecides(env, l, id, input, w)
  {
    match w
    case UtxoWitness(_) => Utxos.RemoveSpends(l.utxos, input.tid, input.index);
    case OldUtxoWitness(xpub, sig) =>
      Utxos.RemoveSpends(l.oldutxos, input.tid, input.index);
      if LegacyDecides(env, l, id, input, w) {
        LegacyAcceptedIff(env, l, id, input.tid, input.index, input.declared, xpub, sig);
      }
    case AccountWitness(_) =>
  }

  /**
   With the intended message, an input is accepted exactly when it is authorised, except where the legacy key check
   decides: there it is always the other way round.
   */
  lemma {:induction false} AcceptedIffAuthorised(env: Env, l: Ledger, id: TxId, input: Input, w: Witness)
    requires env.builder.AsIntended? || input.UtxoInput?
    ensures (ApplyInput(env, l, id, input, w).Ok? <==> Authorised(env, l, id, input, w)) <==>
            !LegacyDecides(env, l, id, input, w)
  {
    match input
    case UtxoInput(_, _, _) => UtxoAccepted(env, l, id, input, w);
    case AccountInput(_, _) =>
  }

  /** A ledger with one legacy output of ten coins at address 4, and an input that spends it. */
  function LegacyLedger(tid: TxId): (l: Ledger) {
    Ledger(map[], map[tid := map[0 := Utxos.Output(4, 10)]], map[], 0, 0, Test, 0)
  }

  /** The owner, whose key 1 the address was made from, is refused. */
  lemma {:induction false} OwnerRefused(env: Env, id: TxId, tid: TxId, sig: nat)
    requires env.oldAddressFromXpub(4, 1)
    ensures ApplyInput(env, LegacyLedger(tid), id, UtxoInput(tid, 0, 10), OldUtxoWitness(1, sig)) ==
            Err(OldUtxoInvalidPublicKey)
  {
    assert Utxos.IsUnspent(LegacyLedger(tid).oldutxos, tid, 0);
  }

  /** A stranger with key 2 is accepted, and the output is gone. */
  lemma {:induction false} StrangerAccepted(env: Env, id: TxId, tid: TxId, sig: nat)
    requires !env.oldAddressFromXpub(4, 2) && env.verifyOld(sig, 2, id)
    ensures var r := ApplyInput(env, LegacyLedger(tid), id, UtxoInput(tid, 0, 10), OldUtxoWitness(2, sig));
            r.Ok? && !Available(r.value, OutRef(true, tid, 0))
  {
    assert Utxos.IsUnspent(LegacyLedger(tid).oldutxos, tid, 0);
    LegacyAcceptedIff(env, LegacyLedger(tid), id, tid, 0, 10, 2, sig);
    Utxos.RemoveSpends(LegacyLedger(tid).oldutxos, tid, 0);
  }

  lemma {:induction false} OneSpent(l: Ledger, l': Ledger, r: OutRef)
    requires Available(l, r) && l'.utxos.Keys <= l.utxos.Keys
    requires forall q :: Available(l', q) <==> Available(l, q) && q != r
    ensures Effect(l, l', [r], {})
  {
  }

  lemma {:induction false} NewOutputSpent(l: Ledger, l': Ledger, tid: TxId, index: Utxos.Index)
    requires Utxos.Remove(l.utxos, tid, index).Ok? && l' == l.(utxos := Utxos.Remove(l.utxos, tid, index).value.0)
    ensures Effect(l, l', [OutRef(false, tid, index)], {})
  {
    Utxos.RemoveSpends(l.utxos, tid, index);
    OneSpent(l, l', OutRef(false, tid, index));
  }

  lemma {:induction false} OldOutputSpent(l: Ledger, l': Ledger, tid: TxId, index: Utxos.Index)
    requires Utxos.Remove(l.oldutxos, tid, index).Ok?
    requires l' == l.(oldutxos := Utxos.Remove(l.oldutxos, tid, index).value.0)
    ensures Effect(l, l', [OutRef(true, tid, index)], {})
  {
    Utxos.RemoveSpends(l.oldutxos, tid, index);
    OneSpent(l, l', OutRef(true, tid, index));
  }

  lemma {:induction false} InputEffect(env: Env, l: Ledger, id: TxId, input: Input, w: Witness)
    requires ApplyInput(env, l, id, input, w).Ok?
    ensures Effect(l, ApplyInput(env, l, id, input, w).value, SpentByInput(input, w), {})
  {
    var l' := ApplyInput(env, l, id, input, w).value;
    match input
    case UtxoInput(tid, index, v) =>
      if w.OldUtxoWitness? {
        OldOutputSpent(l, l', tid, index);
      } else {
        NewOutputSpent(l, l', tid, index);
      }
    case AccountInput(_, _) =>
      NoEffect(l, l');
  }

  lemma {:induction false} InputsEffect(env: Env, l: Ledger, id: TxId, inputs: seq<Input>, ws: seq<Witness>)
    requires |inputs| == |ws| && ApplyInputs(env, l, id, inputs, ws).Ok?
    ensures Effect(l, ApplyInputs(env, l, id, inputs, ws).value, SpentByInputs(inputs, ws), {})
    decreases |inputs|
  {
    if inputs == [] {
      NoEffect(l, l);
    } else {
      InputEffect(env, l, id, inputs[0], ws[0]);
      var l1 := ApplyInput(env, l, id, inputs[0], ws[0]).value;
      InputsEffect(env, l1, id, inputs[1..], ws[1..]);
      var l2 := ApplyInputs(env, l1, id, inputs[1..], ws[1..]).value;
      var none: set<TxId> := {};
      Compose(l, l1, l2, SpentByInput(inputs[0], ws[0]), SpentByInputs(inputs[1..], ws[1..]), none, none);
      assert none + none == none;
    }
  }

  lemma {:induction false} OutputEffect(l: Ledger, allowCreation: bool, id: TxId, outputs: seq<Output>)
    requires |outputs| <= 255 && ApplyTransactionOutput(l, allowCreation, id, outputs).Ok?
    ensures Effect(l, ApplyTransactionOutput(l, allowCreation, id, outputs).value, [], {id})
  {
  }

  lemma {:induction false} TransactionEffect(env: Env, l: Ledger, allowCreation: bool, tx: Transaction)
    requires ApplyTransaction(env, l, allowCreation, tx).Ok? && tx.id !in l.utxos
    ensures |tx.inputs| == |tx.witnesses|
    ensures Effect(l, ApplyTransaction(env, l, allowCreation, tx).value, SpentByInputs(tx.inputs, tx.witnesses),
                   {tx.id})
  {
    InputsEffect(env, l, tx.id, tx.inputs, tx.witnesses);
    var l1 := ApplyInputs(env, l, tx.id, tx.inputs, tx.witnesses).value;
    OutputEffect(l1, allowCreation, tx.id, tx.outputs);
    var spent := SpentByInputs(tx.inputs, tx.witnesses);
    Compose(l, l1, ApplyTransaction(env, l, allowCreation, tx).value, spent, [], {}, {tx.id});
    assert spent + [] == spent && {} + {tx.id} == {tx.id};
  }

  // ----- messages and runs

  function Tx(m: Message): (tx: Option<Transaction>) {
    match m
    case Transfer(tx) => Some(tx)
    case Certificate(tx, _) => Some(tx)
    case _ => None
  }

  function SpentByTx(tx: Transaction): (s: seq<OutRef>) {
    if |tx.inputs| == |tx.witnesses| then SpentByInputs(tx.inputs, tx.witnesses) else []
  }

  function SpentByMessage(m: Message): (s: seq<OutRef>) {
    match Tx(m) case None => [] case Some(tx) => SpentByTx(tx)
  }

  function IdsOfMessage(m: Message): (s: set<TxId>) {
    match Tx(m) case None => {} case Some(tx) => {tx.id}
  }

  function Spent(ms: seq<Message>): (s: seq<OutRef>) {
    if ms == [] then [] else SpentByMessage(ms[0]) + Spent(ms[1..])
  }

  function Ids(ms: seq<Message>): (s: set<TxId>) {
    if ms == [] then {} else IdsOfMessage(ms[0]) + Ids(ms[1..])
  }

  /** The identifiers of the transactions are new and distinct. */
  predicate Fresh(ms: seq<Message>, used: set<TxId>) {
    ms == [] || (IdsOfMessage(ms[0]) !! used && Fresh(ms[1..], used + IdsOfMessage(ms[0])))
  }

  lemma {:induction false} FreshIds(ms: seq<Message>, used: set<TxId>)
    requires Fresh(ms, used)
    ensures Ids(ms) !! used
  {
    if ms != [] {
      FreshIds(ms[1..], used + IdsOfMessage(ms[0]));
    }
  }

  lemma {:induction false} MessageEffect(env: Env, l: Ledger, allowCreation: bool, m: Message)
    requires ApplyMessage(env, l, allowCreation, m).Ok? && IdsOfMessage(m) !! l.utxos.Keys
    ensures Effect(l, ApplyMessage(env, l, allowCreation, m).value, SpentByMessage(m), IdsOfMessage(m))
  {
    match m
    case Update(p) => NoEffect(l, ApplyMessage(env, l, allowCreation, m).value);
    case Transfer(tx) => TransactionEffect(env, l, allowCreation, tx);
    case Certificate(tx, cert) =>
      TransactionEffect(env, l, allowCreation, tx);
      var l1 := ApplyTransaction(env, l, allowCreation, tx).value;
      var l2 := ApplyMessage(env, l, allowCreation, m).value;
      NoEffect(l1, l2);
      Compose(l, l1, l2, SpentByTx(tx), [], {tx.id}, {});
      assert SpentByTx(tx) + [] == SpentByTx(tx) && {tx.id} + {} == {tx.id};
  }

  lemma {:induction false} MessagesEffect(env: Env, l: Ledger, allowCreation: bool, ms: seq<Message>, used: set<TxId>)
    requires ApplyMessages(env, l, allowCreation, ms).Ok? && Fresh(ms, used) && l.utxos.Keys <= used
    ensures Effect(l, ApplyMessages(env, l, allowCreation, ms).value, Spent(ms), Ids(ms))
    decreases |ms|
  {
    if ms == [] {
      NoEffect(l, l);
    } else {
      MessageEffect(env, l, allowCreation, ms[0]);
      var l1 := ApplyMessage(env, l, allowCreation, ms[0]).value;
      var used1 := used + IdsOfMessage(ms[0]);
      MessagesEffect(env, l1, allowCreation, ms[1..], used1);
      FreshIds(ms[1..], used1);
      var l2 := ApplyMessages(env, l1, allowCreation, ms[1..]).value;
      Compose(l, l1, l2, SpentByMessage(ms[0]), Spent(ms[1..]), IdsOfMessage(ms[0]), Ids(ms[1..]));
    }
  }

  function SpentInRun(blocks: seq<Block>): (s: seq<OutRef>) {
    if blocks == [] then [] else Spent(blocks[0].contents) + SpentInRun(blocks[1..])
  }

  function IdsInRun(blocks: seq<Block>): (s: set<TxId>) {
    if blocks == [] then {} else Ids(blocks[0].contents) + IdsInRun(blocks[1..])
  }

  predicate FreshRun(blocks: seq<Block>, used: set<TxId>) {
    blocks == [] || (Fresh(blocks[0].contents, used) && FreshRun(blocks[1..], used + Ids(blocks[0].contents)))
  }

  lemma {:induction false} FreshRunIds(blocks: seq<Block>, used: set<TxId>)
    requires FreshRun(blocks, used)
    ensures IdsInRun(blocks) !! used
  {
    if blocks != [] {
      FreshIds(blocks[0].contents, used);
      FreshRunIds(blocks[1..], used + Ids(blocks[0].contents));
    }
  }

  lemma {:induction false} BlockEffect(env: Env, l: Ledger, b: Block, used: set<TxId>)
    requires AfterBlock(env, l, b).Ok? && Fresh(b.contents, used) && l.utxos.Keys <= used
    ensures Effect(l, AfterBlock(env, l, b).value, Spent(b.contents), Ids(b.contents))
  {
    var start := l.(chainLength := l.chainLength + 1);
    MessagesEffect(env, start, b.allowCreation, b.contents, used);
    SameOutputs(l, start, AfterBlock(env, l, b).value, Spent(b.contents), Ids(b.contents));
  }

  lemma {:induction false} RunEffect(env: Env, l: Ledger, blocks: seq<Block>, used: set<TxId>)
    requires ApplyRun(env, l, blocks).Ok? && FreshRun(blocks, used) && l.utxos.Keys <= used
    ensures Effect(l, ApplyRun(env, l, blocks).value, SpentInRun(blocks), IdsInRun(blocks))
    decreases |blocks|
  {
    if blocks == [] {
      NoEffect(l, l);
    } else {
      var b := blocks[0];
      BlockEffect(env, l, b, used);
      var l1 := AfterBlock(env, l, b).value;
      var used1 := used + Ids(b.contents);
      RunEffect(env, l1, blocks[1..], used1);
      FreshRunIds(blocks[1..], used1);
      Compose(l, l1, ApplyRun(env, l1, blocks[1..]).value, Spent(b.contents), SpentInRun(blocks[1..]),
              Ids(b.contents), IdsInRun(blocks[1..]));
    }
  }

  lemma {:induction false} SameOutputs(l: Ledger, start: Ledger, l': Ledger, spent: seq<OutRef>, ids: set<TxId>)
    requires Effect(start, l', spent, ids) && l.utxos == start.utxos && l.oldutxos == start.oldutxos
    ensures Effect(l, l', spent, ids)
  {
    assert forall r :: Available(l, r) <==> Available(start, r);
  }

  /** In a run whose transaction identifiers are new and distinct, no output is consumed twice. */
  lemma {:induction false} NoDoubleSpend(env: Env, l: Ledger, blocks: seq<Block>)
    requires ApplyRun(env, l, blocks).Ok? && FreshRun(blocks, l.utxos.Keys)
    ensures Distinct(SpentInRun(blocks))
    ensures forall r :: r in SpentInRun(blocks) ==> !Available(ApplyRun(env, l, blocks).value, r)
  {
    RunEffect(env, l, blocks, l.utxos.Keys);
  }
}

/** The counters that an account consumes, and the messages its owner signs with them. */
module SpendingCounters {
  import opened Wrappers
  import opened SpendingMessages
  import opened Values
  import opened Ledger
  import opened LedgerAccounting
  import Accounts
  import DoubleSpend
  import Utxos

  /** What happens to one account. */
  datatype Event = Created | Used(id: TxId, counter: Accounts.Counter) | Deleted

  /**
   An account before and after some events: none, or its next counter. There is no result for events that
   do not fit: a counter other than the next one, a second creation, a deletion before the last counter.
   */
  function Follow(at: Option<nat>, log: seq<Event>): (r: Option<Option<nat>>)
    decreases |log|
  {
    if log == [] then Some(at)
    else
      match log[0]
      case Created => if at.None? then Follow(Some(0), log[1..]) else None
      case Used(_, c) => if at == Some(c) then Follow(Some(c + 1), log[1..]) else None
      case Deleted => if at == Some(Accounts.MAX_COUNTER + 1) then Follow(None, log[1..]) else None
  }

  /** No deletion from position i on and before j. */
  ghost predicate SameLifetime(log: seq<Event>, i: nat, j: nat) {
    i <= j < |log| && forall k :: i <= k < j ==> log[k] != Deleted
  }

  /** From its creation on, the counters an account consumes are 0, 1, 2 and so on, until it is deleted. */
  lemma {:induction false} CountersFromZero(at: Option<nat>, log: seq<Event>, i: nat, j: nat)
    requires Follow(at, log).Some? && i < j && SameLifetime(log, i, j) && log[i] == Created && log[j].Used?
    ensures log[j].counter == j - i - 1
    decreases |log|
  {
    if i > 0 {
      CountersFromZero(Next(at, log[0]), log[1..], i - 1, j - 1);
    } else {
      CountersFrom(0, log[1..], j - 1);
    }
  }

  function Next(at: Option<nat>, e: Event): (r: Option<nat>) {
    match e case Created => Some(0) case Used(_, c) => Some(c + 1) case Deleted => None
  }

  lemma {:induction false} CountersFrom(c: nat, log: seq<Event>, j: nat)
    requires Follow(Some(c), log).Some? && SameLifetime(log, 0, j) && log[j].Used?
    ensures log[j].counter == c + j
    decreases j
  {
    if j > 0 {
      assert log[0].Used?;
      CountersFrom(c + 1, log[1..], j - 1);
    }
  }

  /** Within one lifetime every use takes the counter after the one before it. */
  lemma {:induction false} CountersInARow(at: Option<nat>, log: seq<Event>, i: nat, j: nat)
    requires Follow(at, log).Some? && SameLifetime(log, i, j) && log[i].Used? && log[j].Used?
    ensures log[j].counter == log[i].counter + (j - i)
    decreases |log|
  {
    if i > 0 {
      CountersInARow(Next(at, log[0]), log[1..], i - 1, j - 1);
    } else {
      CountersFrom(log[0].counter, log, j);
    }
  }

  lemma {:induction false} FollowConcat(at: Option<nat>, a: seq<Event>, b: seq<Event>)
    requires Follow(at, a).Some?
    ensures Follow(at, a + b) == Follow(Follow(at, a).value, b)
    decreases |a|
  {
    if a == [] {
      assert a + b == b;
    } else {
      assert (a + b)[1..] == a[1..] + b;
      FollowConcat(Next(at, a[0]), a[1..], b);
    }
  }

  /** Where an account stands in a ledger. */
  function Standing(accounts: Accounts.Ledger, a: Accounts.Identifier): (r: Option<nat>) {
    if a in accounts then Some(accounts[a].counter) else None
  }

  // ----- the events of inputs and outputs

  function InputLog(accounts: Accounts.Ledger, id: TxId, input: Input, a: Accounts.Identifier): (log: seq<Event>) {
    match input
    case UtxoInput(_, _, _) => []
    case AccountInput(account, _) =>
      if account != a || a !in accounts then []
      else if accounts[a].counter == Accounts.MAX_COUNTER then [Used(id, accounts[a].counter), Deleted]
      else [Used(id, accounts[a].counter)]
  }

  /** What is logged is what was accepted: a signature of the account's owner for the message of the logged use. */
  lemma {:induction false} LoggedIsSigned(env: Env, l: Ledger, id: TxId, input: Input, w: Witness)
    requires env.builder.AsIntended? && input.AccountInput? && ApplyInput(env, l, id, input, w).Ok?
    ensures var log := InputLog(l.accounts, id, input, input.id);
            && log != [] && log[0].Used? && w.AccountWitness?
            && env.verifyAccount(w.sig, input.id, ToSign(log[0].id, log[0].counter))
  {
  }

  lemma {:induction false} InputFollows(env: Env, l: Ledger, id: TxId, input: Input, w: Witness, a: Accounts.Identifier)
    requires ApplyInput(env, l, id, input, w).Ok?
    ensures Follow(Standing(l.accounts, a), InputLog(l.accounts, id, input, a)) ==
            Some(Standing(ApplyInput(env, l, id, input, w).value.accounts, a))
  {
    match input
    case UtxoInput(_, _, _) =>
    case AccountInput(account, v) =>
      if account == a && l.accounts[a].counter == Accounts.MAX_COUNTER {
        assert [Used(id, Accounts.MAX_COUNTER), Deleted][1..] == [Deleted];
        assert [Deleted][1..] == [];
      }
  }

  function InputsLog(env: Env, l: Ledger, id: TxId, inputs: seq<Input>, ws: seq<Witness>, a: Accounts.Identifier)
    : (log: seq<Event>)
    requires |inputs| == |ws|
    decreases |inputs|
  {
    if inputs == [] || ApplyInput(env, l, id, inputs[0], ws[0]).Err? then []
    else
      InputLog(l.accounts, id, inputs[0], a) +
      InputsLog(env, ApplyInput(env, l, id, inputs[0], ws[0]).value, id, inputs[1..], ws[1..], a)
  }

  lemma {:induction false} InputsFollow(env: Env, l: Ledger, id: TxId, inputs: seq<Input>, ws: seq<Witness>,
                                        a: Accounts.Identifier)
    requires |inputs| == |ws| && ApplyInputs(env, l, id, inputs, ws).Ok?
    ensures Follow(Standing(l.accounts, a), InputsLog(env, l, id, inputs, ws, a)) ==
            Some(Standing(ApplyInputs(env, l, id, inputs, ws).value.accounts, a))
    decreases |inputs|
  {
    if inputs != [] {
      InputFollows(env, l, id, inputs[0], ws[0], a);
      var l1 := ApplyInput(env, l, id, inputs[0], ws[0]).value;
      InputsFollow(env, l1, id, inputs[1..], ws[1..], a);
      FollowConcat(Standing(l.accounts, a), InputLog(l.accounts, id, inputs[0], a),
                   InputsLog(env, l1, id, inputs[1..], ws[1..], a));
    }
  }

  function OutputLog(accounts: Accounts.Ledger, o: Output, a: Accounts.Identifier): (log: seq<Event>) {
    if o.address.kind == Account(a) && a !in accounts then [Created] else []
  }

  lemma {:induction false} OutputFollows(s: OutputState, l: Ledger, allow: bool, i: Utxos.Index, o: Output,
                                         a: Accounts.Identifier)
    requires ApplyOutput(s, l, allow, i, o).Ok?
    ensures Follow(Standing(s.accounts, a), OutputLog(s.accounts, o, a)) ==
            Some(Standing(ApplyOutput(s, l, allow, i, o).value.accounts, a))
  {
  }

  function OutputsLog(s: OutputState, l: Ledger, allow: bool, outputs: seq<Output>, i: nat,
                      a: Accounts.Identifier): (log: seq<Event>)
    requires i <= |outputs| <= 255
    decreases |outputs| - i
  {
    if i == |outputs| || ApplyOutput(s, l, allow, i, outputs[i]).Err? then []
    else
      OutputLog(s.accounts, outputs[i], a) +
      OutputsLog(ApplyOutput(s, l, allow, i, outputs[i]).value, l, allow, outputs, i + 1, a)
  }

  lemma {:induction false} OutputsFollow(s: OutputState, l: Ledger, allow: bool, outputs: seq<Output>, i: nat,
                                         a: Accounts.Identifier)
    requires i <= |outputs| <= 255 && ApplyOutputs(s, l, allow, outputs, i).Ok?
    ensures Follow(Standing(s.accounts, a), OutputsLog(s, l, allow, outputs, i, a)) ==
            Some(Standing(ApplyOutputs(s, l, allow, outputs, i).value.accounts, a))
    decreases |outputs| - i
  {
    if i < |outputs| {
      OutputFollows(s, l, allow, i, outputs[i], a);
      var s1 := ApplyOutput(s, l, allow, i, outputs[i]).value;
      OutputsFollow(s1, l, allow, outputs, i + 1, a);
      FollowConcat(Standing(s.accounts, a), OutputLog(s.accounts, outputs[i], a),
                   OutputsLog(s1, l, allow, outputs, i + 1, a));
    }
  }

  // ----- transactions and runs

  function TransactionLog(env: Env, l: Ledger, allow: bool, tx: Transaction,
                          a: Accounts.Identifier): (log: seq<Event>) {
    if ApplyTransaction(env, l, allow, tx).Err? then []
    else
      var l1 := ApplyInputs(env, l, tx.id, tx.inputs, tx.witnesses).value;
      InputsLog(env, l, tx.id, tx.inputs, tx.witnesses, a) +
      OutputsLog(OutputState(l1.accounts, []), l1, allow, tx.outputs, 0, a)
  }

  lemma {:induction false} TransactionFollows(env: Env, l: Ledger, allow: bool, tx: Transaction, a: Accounts.Identifier)
    requires ApplyTransaction(env, l, allow, tx).Ok?
    ensures Follow(Standing(l.accounts, a), TransactionLog(env, l, allow, tx, a)) ==
            Some(Standing(ApplyTransaction(env, l, allow, tx).value.accounts, a))
  {
    InputsFollow(env, l, tx.id, tx.inputs, tx.witnesses, a);
    var l1 := ApplyInputs(env, l, tx.id, tx.inputs, tx.witnesses).value;
    var s1 := OutputState(l1.accounts, []);
    OutputsFollow(s1, l1, allow, tx.outputs, 0, a);
    FollowConcat(Standing(l.accounts, a), InputsLog(env, l, tx.id, tx.inputs, tx.witnesses, a),
                 OutputsLog(s1, l1, allow, tx.outputs, 0, a));
  }

  function MessageLog(env: Env, l: Ledger, allow: bool, m: Message, a: Accounts.Identifier): (log: seq<Event>) {
    match m
    case Transfer(tx) => TransactionLog(env, l, allow, tx, a)
    case Certificate(tx, _) => TransactionLog(env, l, allow, tx, a)
    case _ => []
  }

  function MessagesLog(env: Env, l: Ledger, allow: bool, ms: seq<Message>, a: Accounts.Identifier): (log: seq<Event>)
    decreases |ms|
  {
    if ms == [] || ApplyMessage(env, l, allow, ms[0]).Err? then []
    else
      MessageLog(env, l, allow, ms[0], a) +
      MessagesLog(env, ApplyMessage(env, l, allow, ms[0]).value, allow, ms[1..], a)
  }

  lemma {:induction false} MessageFollows(env: Env, l: Ledger, allow: bool, m: Message, a: Accounts.Identifier)
    requires ApplyMessage(env, l, allow, m).Ok?
    ensures Follow(Standing(l.accounts, a), MessageLog(env, l, allow, m, a)) ==
            Some(Standing(ApplyMessage(env, l, allow, m).value.accounts, a))
  {
    match m
    case Transfer(tx) => TransactionFollows(env, l, allow, tx, a);
    case Certificate(tx, _) => TransactionFollows(env, l, allow, tx, a);
    case Update(_) =>
  }

  lemma {:induction false} MessagesFollow(env: Env, l: Ledger, allow: bool, ms: seq<Message>, a: Accounts.Identifier)
    requires ApplyMessages(env, l, allow, ms).Ok?
    ensures Follow(Standing(l.accounts, a), MessagesLog(env, l, allow, ms, a)) ==
            Some(Standing(ApplyMessages(env, l, allow, ms).value.accounts, a))
    decreases |ms|
  {
    if ms != [] {
      MessageFollows(env, l, allow, ms[0], a);
      var l1 := ApplyMessage(env, l, allow, ms[0]).value;
      MessagesFollow(env, l1, allow, ms[1..], a);
      FollowConcat(Standing(l.accounts, a), MessageLog(env, l, allow, ms[0], a),
                   MessagesLog(env, l1, allow, ms[1..], a));
    }
  }

  function BlockLog(env: Env, l: Ledger, b: Block, a: Accounts.Identifier): (log: seq<Event>) {
    MessagesLog(env, l.(chainLength := l.chainLength + 1), b.allowCreation, b.contents, a)
  }

  lemma {:induction false} BlockFollows(env: Env, l: Ledger, b: Block, a: Accounts.Identifier)
    requires AfterBlock(env, l, b).Ok?
    ensures Follow(Standing(l.accounts, a), BlockLog(env, l, b, a)) ==
            Some(Standing(AfterBlock(env, l, b).value.accounts, a))
  {
    MessagesFollow(env, l.(chainLength := l.chainLength + 1), b.allowCreation, b.contents, a);
  }

  function RunLog(env: Env, l: Ledger, blocks: seq<Block>, a: Accounts.Identifier): (log: seq<Event>)
    decreases |blocks|
  {
    if blocks == [] then []
    else
      match AfterBlock(env, l, blocks[0])
      case Err(_) => []
      case Ok(l') => BlockLog(env, l, blocks[0], a) + RunLog(env, l', blocks[1..], a)
  }

  /** In every run, the events of every account fit together. */
  lemma {:induction false} RunFollows(env: Env, l: Ledger, blocks: seq<Block>, a: Accounts.Identifier)
    requires ApplyRun(env, l, blocks).Ok?
    ensures Follow(Standing(l.accounts, a), RunLog(env, l, blocks, a)) ==
            Some(Standing(ApplyRun(env, l, blocks).value.accounts, a))
    decreases |blocks|
  {
    if blocks != [] {
      BlockFollows(env, l, blocks[0], a);
      var l1 := AfterBlock(env, l, blocks[0]).value;
      RunFollows(env, l1, blocks[1..], a);
      FollowConcat(Standing(l.accounts, a), BlockLog(env, l, blocks[0], a), RunLog(env, l1, blocks[1..], a));
    }
  }

  /** So in every run, the counters consumed by an account after it is created are 0, 1, 2 and so on. */
  lemma {:induction false} RunCountersFromZero(env: Env, l: Ledger, blocks: seq<Block>, a: Accounts.Identifier,
                                               i: nat, j: nat)
    requires ApplyRun(env, l, blocks).Ok?
    requires var log := RunLog(env, l, blocks, a);
             i < j && SameLifetime(log, i, j) && log[i] == Created && log[j].Used?
    ensures RunLog(env, l, blocks, a)[j].counter == j - i - 1
  {
    RunFollows(env, l, blocks, a);
    CountersFromZero(Standing(l.accounts, a), RunLog(env, l, blocks, a), i, j);
  }

  /** An account that is there from the start goes on from its counter. */
  lemma {:induction false} RunCountersContinue(env: Env, l: Ledger, blocks: seq<Block>, a: Accounts.Identifier, j: nat)
    requires ApplyRun(env, l, blocks).Ok? && a in l.accounts
    requires SameLifetime(RunLog(env, l, blocks, a), 0, j) && RunLog(env, l, blocks, a)[j].Used?
    ensures RunLog(env, l, blocks, a)[j].counter == l.accounts[a].counter + j
  {
    RunFollows(env, l, blocks, a);
    CountersFrom(l.accounts[a].counter, RunLog(env, l, blocks, a), j);
  }

  // ----- replay protection, with the intended message

  /** Within one lifetime of an account, no run accepts the same message twice. */
  lemma {:induction false} NoReplay(env: Env, l: Ledger, blocks: seq<Block>, a: Accounts.Identifier, i: nat, j: nat)
    requires ApplyRun(env, l, blocks).Ok?
    requires var log := RunLog(env, l, blocks, a);
             i < j && SameLifetime(log, i, j) && log[i].Used? && log[j].Used?
    ensures var log := RunLog(env, l, blocks, a);
            ToSign(log[i].id, log[i].counter) != ToSign(log[j].id, log[j].counter)
  {
    var log := RunLog(env, l, blocks, a);
    RunFollows(env, l, blocks, a);
    CountersInARow(Standing(l.accounts, a), log, i, j);
    if ToSign(log[i].id, log[i].counter) == ToSign(log[j].id, log[j].counter) {
      MessageInjective(log[i].id, log[i].counter, log[j].id, log[j].counter);
    }
  }

  // ----- replay protection across lifetimes, for distinct transactions

  /** No two uses are of the same transaction and counter. */
  ghost predicate NoRepeat(log: seq<Event>) {
    forall i, j :: 0 <= i < j < |log| && log[i].Used? && log[j].Used? ==> log[i] != log[j]
  }

  /** Only these transactions use the account. */
  ghost predicate UsedBy(log: seq<Event>, ids: set<TxId>) {
    forall i :: 0 <= i < |log| && log[i].Used? ==> log[i].id in ids
  }

  lemma {:induction false} NoRepeatConcat(a: seq<Event>, b: seq<Event>, ids: set<TxId>, ids': set<TxId>)
    requires NoRepeat(a) && NoRepeat(b) && UsedBy(a, ids) && UsedBy(b, ids') && ids !! ids'
    ensures NoRepeat(a + b) && UsedBy(a + b, ids + ids')
  {
  }

  /** What follows an event fits from where the event leads. */
  lemma {:induction false} FollowAfter(at: Option<nat>, log: seq<Event>, d: nat)
    requires Follow(at, log).Some? && d < |log|
    ensures Follow(Next(None, log[d]), log[d + 1..]).Some?
    decreases d
  {
    if d > 0 {
      FollowAfter(Next(at, log[0]), log[1..], d - 1);
      assert log[1..][d..] == log[d + 1..];
    }
  }

  /** Without creations, everything before a use is one lifetime. */
  lemma {:induction false} OneLifetime(at: Option<nat>, log: seq<Event>, i: nat, j: nat)
    requires Follow(at, log).Some? && i <= j < |log| && forall k :: 0 <= k < |log| ==> !log[k].Created?
    ensures SameLifetime(log, i, j)
  {
    forall k | i <= k < j ensures log[k] != Deleted {
      FollowAfter(at, log, k);
      assert log[k + 1..][0] == log[k + 1];
    }
  }

  lemma {:induction false} InputsLogEvents(env: Env, l: Ledger, id: TxId, inputs: seq<Input>, ws: seq<Witness>,
                                           a: Accounts.Identifier)
    requires |inputs| == |ws|
    ensures var log := InputsLog(env, l, id, inputs, ws, a);
            UsedBy(log, {id}) && forall k :: 0 <= k < |log| ==> !log[k].Created?
    decreases |inputs|
  {
    if inputs != [] && ApplyInput(env, l, id, inputs[0], ws[0]).Ok? {
      InputsLogEvents(env, ApplyInput(env, l, id, inputs[0], ws[0]).value, id, inputs[1..], ws[1..], a);
    }
  }

  lemma {:induction false} OutputsLogEvents(s: OutputState, l: Ledger, allow: bool, outputs: seq<Output>, i: nat,
                                            a: Accounts.Identifier)
    requires i <= |outputs| <= 255
    ensures CreationsOnly(OutputsLog(s, l, allow, outputs, i, a))
    decreases |outputs| - i
  {
    if i < |outputs| && ApplyOutput(s, l, allow, i, outputs[i]).Ok? {
      var s1 := ApplyOutput(s, l, allow, i, outputs[i]).value;
      OutputsLogEvents(s1, l, allow, outputs, i + 1, a);
      var first, rest := OutputLog(s.accounts, outputs[i], a), OutputsLog(s1, l, allow, outputs, i + 1, a);
      assert CreationsOnly(first + rest);
    }
  }

  ghost predicate CreationsOnly(log: seq<Event>) {
    forall k :: 0 <= k < |log| ==> log[k].Created?
  }

  lemma {:induction false} InputsNoRepeat(env: Env, l: Ledger, id: TxId, inputs: seq<Input>, ws: seq<Witness>,
                                          a: Accounts.Identifier)
    requires |inputs| == |ws| && ApplyInputs(env, l, id, inputs, ws).Ok?
    ensures NoRepeat(InputsLog(env, l, id, inputs, ws, a))
  {
    var log, at := InputsLog(env, l, id, inputs, ws, a), Standing(l.accounts, a);
    InputsFollow(env, l, id, inputs, ws, a);
    InputsLogEvents(env, l, id, inputs, ws, a);
    forall i, j | 0 <= i < j < |log| && log[i].Used? && log[j].Used? ensures log[i] != log[j] {
      OneLifetime(at, log, i, j);
      CountersInARow(at, log, i, j);
    }
  }

  lemma {:induction false} TransactionNoRepeat(env: Env, l: Ledger, allow: bool, tx: Transaction,
                                               a: Accounts.Identifier)
    ensures NoRepeat(TransactionLog(env, l, allow, tx, a)) && UsedBy(TransactionLog(env, l, allow, tx, a), {tx.id})
  {
    if ApplyTransaction(env, l, allow, tx).Ok? {
      InputsNoRepeat(env, l, tx.id, tx.inputs, tx.witnesses, a);
      InputsLogEvents(env, l, tx.id, tx.inputs, tx.witnesses, a);
      var l1 := ApplyInputs(env, l, tx.id, tx.inputs, tx.witnesses).value;
      var s1 := OutputState(l1.accounts, []);
      OutputsLogEvents(s1, l1, allow, tx.outputs, 0, a);
      ThenCreations(InputsLog(env, l, tx.id, tx.inputs, tx.witnesses, a),
                    OutputsLog(s1, l1, allow, tx.outputs, 0, a), {tx.id});
    }
  }

  lemma {:induction false} ThenCreations(log: seq<Event>, more: seq<Event>, ids: set<TxId>)
    requires NoRepeat(log) && UsedBy(log, ids) && CreationsOnly(more)
    ensures NoRepeat(log + more) && UsedBy(log + more, ids)
  {
    var none: set<TxId> := {};
    assert NoRepeat(more) && UsedBy(more, none);
    NoRepeatConcat(log, more, ids, none);
    assert ids + none == ids;
  }

  lemma {:induction false} MessageNoRepeat(env: Env, l: Ledger, allow: bool, m: Message, a: Accounts.Identifier)
    ensures NoRepeat(MessageLog(env, l, allow, m, a))
    ensures UsedBy(MessageLog(env, l, allow, m, a), DoubleSpend.IdsOfMessage(m))
  {
    match m
    case Transfer(tx) => TransactionNoRepeat(env, l, allow, tx, a);
    case Certificate(tx, _) => TransactionNoRepeat(env, l, allow, tx, a);
    case _ =>
  }

  lemma {:induction false} MessagesNoRepeat(env: Env, l: Ledger, allow: bool, ms: seq<Message>,
                                            a: Accounts.Identifier, used: set<TxId>)
    requires DoubleSpend.Fresh(ms, used)
    ensures NoRepeat(MessagesLog(env, l, allow, ms, a))
    ensures UsedBy(MessagesLog(env, l, allow, ms, a), DoubleSpend.Ids(ms))
    decreases |ms|
  {
    if ms != [] && ApplyMessage(env, l, allow, ms[0]).Ok? {
      var l1, used1 := ApplyMessage(env, l, allow, ms[0]).value, used + DoubleSpend.IdsOfMessage(ms[0]);
      MessageNoRepeat(env, l, allow, ms[0], a);
      MessagesNoRepeat(env, l1, allow, ms[1..], a, used1);
      DoubleSpend.FreshIds(ms[1..], used1);
      NoRepeatConcat(MessageLog(env, l, allow, ms[0], a), MessagesLog(env, l1, allow, ms[1..], a),
                     DoubleSpend.IdsOfMessage(ms[0]), DoubleSpend.Ids(ms[1..]));
    }
  }

  lemma {:induction false} BlockNoRepeat(env: Env, l: Ledger, b: Block, a: Accounts.Identifier, used: set<TxId>)
    requires DoubleSpend.Fresh(b.contents, used)
    ensures NoRepeat(BlockLog(env, l, b, a)) && UsedBy(BlockLog(env, l, b, a), DoubleSpend.Ids(b.contents))
  {
    MessagesNoRepeat(env, l.(chainLength := l.chainLength + 1), b.allowCreation, b.contents, a, used);
  }

  lemma {:induction false} RunNoRepeat(env: Env, l: Ledger, blocks: seq<Block>, a: Accounts.Identifier,
                                       used: set<TxId>)
    requires DoubleSpend.FreshRun(blocks, used)
    ensures NoRepeat(RunLog(env, l, blocks, a)) && UsedBy(RunLog(env, l, blocks, a), DoubleSpend.IdsInRun(blocks))
    decreases |blocks|
  {
    if blocks != [] && AfterBlock(env, l, blocks[0]).Ok? {
      var b, l1 := blocks[0], AfterBlock(env, l, blocks[0]).value;
      var used1 := used + DoubleSpend.Ids(b.contents);
      BlockNoRepeat(env, l, b, a, used);
      RunNoRepeat(env, l1, blocks[1..], a, used1);
      DoubleSpend.FreshRunIds(blocks[1..], used1);
      NoRepeatConcat(BlockLog(env, l, b, a), RunLog(env, l1, blocks[1..], a),
                     DoubleSpend.Ids(b.contents), DoubleSpend.IdsInRun(blocks[1..]));
    }
  }

  /** With new and distinct transaction identifiers, no run accepts the same message twice, across all lifetimes. */
  lemma {:induction false} NoReplayInRun(env: Env, l: Ledger, blocks: seq<Block>, a: Accounts.Identifier, i: nat,
                                         j: nat)
    requires DoubleSpend.FreshRun(blocks, l.utxos.Keys)
    requires var log := RunLog(env, l, blocks, a);
             i < j < |log| && log[i].Used? && log[j].Used?
    ensures var log := RunLog(env, l, blocks, a);
            ToSign(log[i].id, log[i].counter) != ToSign(log[j].id, log[j].counter)
  {
    var log := RunLog(env, l, blocks, a);
    RunNoRepeat(env, l, blocks, a, l.utxos.Keys);
    if ToSign(log[i].id, log[i].counter) == ToSign(log[j].id, log[j].counter) {
      MessageInjective(log[i].id, log[i].counter, log[j].id, log[j].counter);
    }
  }

  // ----- account inputs with the message as the code builds it

  lemma {:induction false} NoAccountInputs(env: Env, l: Ledger, id: TxId, inputs: seq<Input>, ws: seq<Witness>, k: nat)
    requires env.builder.AsWritten? && |inputs| == |ws| && k < |inputs| && inputs[k].AccountInput?
    ensures ApplyInputs(env, l, id, inputs, ws).Err?
    decreases k
  {
    if k > 0 {
      match ApplyInput(env, l, id, inputs[0], ws[0])
      case Err(_) =>
      case Ok(l1) => NoAccountInputs(env, l1, id, inputs[1..], ws[1..], k - 1);
    }
  }

  predicate SpendsFromAccount(tx: Transaction) {
    exists k :: 0 <= k < |tx.inputs| && tx.inputs[k].AccountInput?
  }

  /** As the code is, no transaction that spends from an account is accepted, whatever its witnesses. */
  lemma {:induction false} NoAccountInput(env: Env, l: Ledger, allow: bool, tx: Transaction)
    requires env.builder.AsWritten? && SpendsFromAccount(tx)
    ensures ApplyTransaction(env, l, allow, tx).Err?
  {
    var k :| 0 <= k < |tx.inputs| && tx.inputs[k].AccountInput?;
    if |tx.inputs| == |tx.witnesses| {
      NoAccountInputs(env, l, tx.id, tx.inputs, tx.witnesses, k);
    }
  }

  predicate Spends(m: Message) {
    match m
    case Transfer(tx) => SpendsFromAccount(tx)
    case Certificate(tx, _) => SpendsFromAccount(tx)
    case _ => false
  }

  lemma {:induction false} NoAccountMessage(env: Env, l: Ledger, allow: bool, ms: seq<Message>, k: nat)
    requires env.builder.AsWritten? && k < |ms| && Spends(ms[k])
    ensures ApplyMessages(env, l, allow, ms).Err?
    decreases k
  {
    match ApplyMessage(env, l, allow, ms[0])
    case Err(_) =>
    case Ok(l1) =>
      if k == 0 {
        NoAccountInput(env, l, allow, if ms[0].Transfer? then ms[0].tx else ms[0].certTx);
      } else {
        NoAccountMessage(env, l1, allow, ms[1..], k - 1);
      }
  }

  lemma {:induction false} NoAccountBlock(env: Env, l: Ledger, b: Block, k: nat)
    requires env.builder.AsWritten? && k < |b.contents| && Spends(b.contents[k])
    ensures AfterBlock(env, l, b).Err?
  {
    NoAccountMessage(env, l.(chainLength := l.chainLength + 1), b.allowCreation, b.contents, k);
  }

  /** So no run spends from an account: what is paid to one stays there. */
  lemma {:induction false} NoAccountInputInRun(env: Env, l: Ledger, blocks: seq<Block>, n: nat, k: nat)
    requires env.builder.AsWritten? && ApplyRun(env, l, blocks).Ok?
    requires n < |blocks| && k < |blocks[n].contents|
    ensures !Spends(blocks[n].contents[k])
    decreases n
  {
    if n > 0 {
      NoAccountInputInRun(env, AfterBlock(env, l, blocks[0]).value, blocks[1..], n - 1, k);
    } else if Spends(blocks[0].contents[k]) {
      NoAccountBlock(env, l, blocks[0], k);
    }
  }

  /** An account of five coins, and a transaction that moves three of them to an output. */
  function AccountLedger(): (l: Ledger) {
    Ledger(map[], map[], map[1 := Accounts.State(0, 5)], 0, 0, Test, 0)
  }

  function AccountSpending(id: TxId, sig: nat): (tx: Transaction) {
    Transaction(id, [AccountInput(1, 3)], [Utxos.Output(Address(Test, Single(2)), 3)], [AccountWitness(sig)])
  }

  lemma {:induction false} AccountInputAccepted(env: Env, id: TxId, sig: nat)
    requires env.builder.AsIntended? && env.verifyAccount(sig, 1, ToSign(id, 0))
    ensures var l := AccountLedger();
            var l1 := l.(accounts := l.accounts[1 := Accounts.State(1, 2)]);
            ApplyInputs(env, l, id, [AccountInput(1, 3)], [AccountWitness(sig)]) == Ok(l1)
  {
    var l := AccountLedger();
    var l1 := l.(accounts := l.accounts[1 := Accounts.State(1, 2)]);
    assert Accounts.RemoveValue(l.accounts, 1, 3) == Ok((l1.accounts, 0));
    assert ApplyInput(env, l, id, AccountInput(1, 3), AccountWitness(sig)) == Ok(l1);
    assert ApplyInputs(env, l1, id, [], []) == Ok(l1);
  }

  /** Its owner's transaction is refused as the code is; with the intended message it is accepted. */
  lemma {:induction false} AccountInputPanics(env: Env, id: TxId, sig: nat)
    requires env.verifyAccount(sig, 1, ToSign(id, 0))
    ensures ApplyTransaction(env.(builder := AsWritten), AccountLedger(), false, AccountSpending(id, sig)) == Err(Panic)
    ensures ApplyTransaction(env.(builder := AsIntended), AccountLedger(), false, AccountSpending(id, sig)).Ok?
  {
    var l, tx := AccountLedger(), AccountSpending(id, sig);
    assert InputValues(tx.inputs) == [3] && Plain([3]) == 3;
    AccountInputAccepted(env.(builder := AsIntended), id, sig);
    OneOutput(l.(accounts := l.accounts[1 := Accounts.State(1, 2)]), id, tx.outputs[0]);
  }
}
