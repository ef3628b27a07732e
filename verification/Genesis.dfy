/** The ledger that block 0 declares (chain-impl-mockchain/src/ledger.rs). */
module Genesis {
  import opened Wrappers
  import opened Values
  import opened MapSum
  import opened Ledger
  import opened LedgerAccounting
  import opened SpendingCounters
  import Accounts
  import Utxos

  // ----- the total of a ledger, by iteration

  function EntryValues<A>(es: seq<Utxos.Entry<A>>): (vs: seq<Value>) {
    if es == [] then [] else [es[0].output.value] + EntryValues(es[1..])
  }

  lemma {:induction false} EntryValuesTotal<A>(es: seq<Utxos.Entry<A>>)
    ensures Plain(EntryValues(es)) == Utxos.EntriesTotal(es)
  {
    if es != [] {
      EntryValuesTotal(es[1..]);
      PlainCons(EntryValues(es));
      assert EntryValues(es)[1..] == EntryValues(es[1..]);
    }
  }

  lemma {:induction false} PlainConcat(a: seq<Value>, b: seq<Value>)
    ensures Plain(a + b) == Plain(a) + Plain(b)
    decreases |b|
  {
    if b == [] {
      assert a + b == a;
    } else {
      var n := |b| - 1;
      PlainConcat(a, b[..n]);
      assert (a + b)[..|a| + n] == a + b[..n];
    }
  }

  /** The balances of the accounts, in some order. */
  method ListBalances(accounts: Accounts.Ledger) returns (vs: seq<Value>)
    ensures Plain(vs) == Accounts.Total(accounts)
  {
    vs := [];
    var left := accounts;
    while left != map[]
      invariant Plain(vs) + Accounts.Total(left) == Accounts.Total(accounts)
      decreases |left|
    {
      var a :| a in left;
      SumRemove(left, Accounts.Balance, a);
      assert (vs + [left[a].value])[..|vs|] == vs;
      vs := vs + [left[a].value];
      left := left - {a};
    }
  }

  /** The check of block 0 passes exactly when everything together fits in a value. */
  method ValidateUtxoTotalValue(l: Ledger) returns (r: Result<(), Error>)
    ensures r == if Total(l) <= MAX then Ok(()) else Err(Block0UtxoTotalValueTooBig)
  {
    var oldEntries := Utxos.Collect(l.oldutxos);
    var newEntries := Utxos.Collect(l.utxos);
    var balances := ListBalances(l.accounts);
    EntryValuesTotal(oldEntries);
    EntryValuesTotal(newEntries);
    var accountValue := SumValues(balances);
    if accountValue.Err? {
      return Err(Block0UtxoTotalValueTooBig);
    }
    var outputs := EntryValues(oldEntries) + EntryValues(newEntries);
    PlainConcat(EntryValues(oldEntries), EntryValues(newEntries));
    PlainConcat(outputs, [accountValue.value]);
    assert Plain([accountValue.value]) == accountValue.value;
    var all := SumValues(outputs + [accountValue.value]);
    return if all.Err? then Err(Block0UtxoTotalValueTooBig) else Ok(());
  }

  // ----- the messages of block 0

  function Enumerate(outputs: seq<Utxos.Output<nat>>, n: nat): (s: seq<Utxos.Indexed<nat>>)
    requires n <= |outputs| <= 255
    ensures |s| == n && forall i :: 0 <= i < n ==> s[i] == Utxos.Indexed(i, outputs[i])
  {
    if n == 0 then [] else Enumerate(outputs, n - 1) + [Utxos.Indexed(n - 1, outputs[n - 1])]
  }

  function DeclareOld(utxos: Utxos.Ledger<nat>, decl: Declaration): (r: Result<Utxos.Ledger<nat>, Error>) {
    if |decl.outputs| >= 255 then Err(Panic)
    else
      match Utxos.Add(utxos, decl.id, Enumerate(decl.outputs, |decl.outputs|))
      case Err(e) => Err(UtxoErr(e))
      case Ok(next) => Ok(next)
  }

  /** A transaction of block 0 has outputs only. */
  function Block0Transaction(l: Ledger, allow: bool, tx: Transaction): (r: Result<Ledger, Error>) {
    if tx.inputs != [] then Err(Block0TransactionHasInput)
    else if tx.witnesses != [] then Err(Block0TransactionHasWitnesses)
    else if |tx.outputs| >= 255 then Err(Panic)
    else ApplyTransactionOutput(l, allow, tx.id, tx.outputs)
  }

  /** One message after the initial one. */
  function Block0Message(env: Env, l: Ledger, allow: bool, m: Message): (r: Result<Ledger, Error>) {
    match m
    case Initial(_) => Err(Block0InitialMessageMissing)
    case OldUtxoDeclaration(decl) =>
      (match DeclareOld(l.oldutxos, decl)
       case Err(e) => Err(e)
       case Ok(next) => Ok(l.(oldutxos := next)))
    case Transfer(tx) => Block0Transaction(l, allow, tx)
    case Update(p) => Ok(l.(settings := env.applyUpdate(l.settings, p)))
    case Certificate(tx, cert) =>
      if tx.inputs != [] then Err(Block0TransactionHasInput)
      else if tx.witnesses != [] then Err(Block0TransactionHasWitnesses)
      else if tx.outputs != [] then Err(Block0TransactionHasOutput)
      else
        match env.applyDelegation(l.delegation, cert)
        case None => Err(DelegationErr)
        case Some(d) => Ok(l.(delegation := d))
  }

  /** Whether the next message may create accounts: an update decides, nothing else changes it. */
  function AllowedAfter(env: Env, l: Ledger, allow: bool, m: Message): (b: bool) {
    if m.Update? then env.allowAccountCreation(env.applyUpdate(l.settings, m.proposal)) else allow
  }

  function Block0Messages(env: Env, l: Ledger, allow: bool, ms: seq<Message>): (r: Result<Ledger, Error>)
    decreases |ms|
  {
    if ms == [] then Ok(l)
    else
      match Block0Message(env, l, allow, ms[0])
      case Err(e) => Err(e)
      case Ok(next) => Block0Messages(env, next, AllowedAfter(env, l, allow, ms[0]), ms[1..])
  }

  /** The last discrimination given counts, and the last consensus version. */
  function DiscriminationOf(params: seq<ConfigParam>): (d: Discrimination) {
    if params == [] then Test
    else
      var last := params[|params| - 1];
      if last.DiscriminationParam? then last.discrimination else DiscriminationOf(params[..|params| - 1])
  }

  function ConsensusOf(params: seq<ConfigParam>): (v: Option<nat>) {
    if params == [] then None
    else
      var last := params[|params| - 1];
      if last.ConsensusVersion? then Some(last.version) else ConsensusOf(params[..|params| - 1])
  }

  function Empty(d: Discrimination): (l: Ledger)
    ensures l.utxos.Keys == {} && l.oldutxos.Keys == {} && l.accounts.Keys == {}
  {
    Ledger(map[], map[], map[], 0, 0, d, 0)
  }

  /** The ledger of block 0. */
  ghost function Block0(env: Env, contents: seq<Message>): (r: Result<Ledger, Error>) {
    if contents == [] then Err(Block0InitialMessageMissing)
    else if !contents[0].Initial? then Err(ExpectingInitialMessage)
    else if ConsensusOf(contents[0].params).None? then Err(Block0InitialMessageNoConsensus)
    else
      match Block0Messages(env, Empty(DiscriminationOf(contents[0].params)), false, contents[1..])
      case Err(e) => Err(e)
      case Ok(l) => if Total(l) <= MAX then Ok(l) else Err(Block0UtxoTotalValueTooBig)
  }

  // ----- the loops of the source

  method ApplyOldDeclaration(utxos: Utxos.Ledger<nat>, decl: Declaration) returns (r: Result<Utxos.Ledger<nat>, Error>)
    ensures r == DeclareOld(utxos, decl)
  {
    if |decl.outputs| >= 255 {
      return Err(Panic);
    }
    var outputs: seq<Utxos.Indexed<nat>> := [];
    for i := 0 to |decl.outputs|
      invariant outputs == Enumerate(decl.outputs, i)
    {
      outputs := outputs + [Utxos.Indexed(i, decl.outputs[i])];
    }
    match Utxos.Add(utxos, decl.id, outputs) {
      case Err(e) => return Err(UtxoErr(e));
      case Ok(next) => return Ok(next);
    }
  }

  method Block0Transfer(l: Ledger, allow: bool, tx: Transaction) returns (r: Result<Ledger, Error>)
    ensures r == Block0Transaction(l, allow, tx)
  {
    if |tx.inputs| != 0 {
      return Err(Block0TransactionHasInput);
    }
    if |tx.witnesses| != 0 {
      return Err(Block0TransactionHasWitnesses);
    }
    if |tx.outputs| >= 255 {
      return Err(Panic);
    }
    var out := InternalApplyTransactionOutput(l.utxos, l.accounts, l, allow, tx.id, tx.outputs);
    if out.Err? {
      return Err(out.error);
    }
    return Ok(l.(utxos := out.value.0, accounts := out.value.1));
  }

  /** One message after the initial one; `allowed` says whether the next one may create accounts. */
  method ApplyBlock0Message(env: Env, l: Ledger, allow: bool, m: Message) returns (r: Result<Ledger, Error>,
                            allowed: bool)
    ensures r == Block0Message(env, l, allow, m) && allowed == AllowedAfter(env, l, allow, m)
  {
    allowed := allow;
    match m {
      case Initial(_) =>
        r := Err(Block0InitialMessageMissing);
      case OldUtxoDeclaration(decl) =>
        var declared := ApplyOldDeclaration(l.oldutxos, decl);
        r := if declared.Err? then Err(declared.error) else Ok(l.(oldutxos := declared.value));
      case Transfer(tx) =>
        r := Block0Transfer(l, allow, tx);
      case Update(p) =>
        var settings := env.applyUpdate(l.settings, p);
        r := Ok(l.(settings := settings));
        allowed := env.allowAccountCreation(settings);
      case Certificate(tx, cert) =>
        if |tx.inputs| != 0 {
          r := Err(Block0TransactionHasInput);
        } else if |tx.witnesses| != 0 {
          r := Err(Block0TransactionHasWitnesses);
        } else if |tx.outputs| != 0 {
          r := Err(Block0TransactionHasOutput);
        } else {
          match env.applyDelegation(l.delegation, cert)
          case None => r := Err(DelegationErr);
          case Some(d) => r := Ok(l.(delegation := d));
        }
    }
  }

  method ReadParams(params: seq<ConfigParam>) returns (d: Discrimination, consensus: Option<nat>)
    ensures d == DiscriminationOf(params) && consensus == ConsensusOf(params)
  {
    d, consensus := Test, None;
    for i := 0 to |params|
      invariant d == DiscriminationOf(params[..i]) && consensus == ConsensusOf(params[..i])
    {
      assert params[..i + 1][..i] == params[..i];
      match params[i]
      case Block0Date(_) =>
      case DiscriminationParam(x) => d := x;
      case ConsensusVersion(v) => consensus := Some(v);
    }
    assert params[..|params|] == params;
  }

  /** The messages after the initial one, in order. */
  method ApplyBlock0Messages(env: Env, start: Ledger, ms: seq<Message>) returns (r: Result<Ledger, Error>)
    ensures r == Block0Messages(env, start, false, ms)
  {
    var l, allow := start, false;
    for i := 0 to |ms|
      invariant Block0Messages(env, l, allow, ms[i..]) == Block0Messages(env, start, false, ms)
    {
      assert ms[i..][1..] == ms[i + 1..];
      var next, allowed := ApplyBlock0Message(env, l, allow, ms[i]);
      if next.Err? {
        return next;
      }
      l, allow := next.value, allowed;
    }
    return Ok(l);
  }

  method NewLedger(env: Env, contents: seq<Message>) returns (r: Result<Ledger, Error>)
    ensures r == Block0(env, contents)
  {
    if contents == [] {
      return Err(Block0InitialMessageMissing);
    }
    if !contents[0].Initial? {
      return Err(ExpectingInitialMessage);
    }
    var d, consensus := ReadParams(contents[0].params);
    if consensus.None? {
      return Err(Block0InitialMessageNoConsensus);
    }
    var declared := ApplyBlock0Messages(env, Empty(d), contents[1..]);
    if declared.Err? {
      return declared;
    }
    var valid := ValidateUtxoTotalValue(declared.value);
    if valid.Err? {
      return Err(valid.error);
    }
    return declared;
  }

  // ----- what the ledger of block 0 holds: its total

  function OldValues(outputs: seq<Utxos.Output<nat>>, n: nat): (total: nat)
    requires n <= |outputs|
  {
    if n == 0 then 0 else OldValues(outputs, n - 1) + outputs[n - 1].value
  }

  lemma {:induction false} EnumerateTotal(outputs: seq<Utxos.Output<nat>>, n: nat)
    requires n <= |outputs| <= 255
    ensures Utxos.PlainTotal(Enumerate(outputs, n)) == OldValues(outputs, n)
  {
    if n > 0 {
      EnumerateTotal(outputs, n - 1);
      Utxos.PlainTotalAppend(Enumerate(outputs, n - 1), Utxos.Indexed(n - 1, outputs[n - 1]));
    }
  }

  /** What a message of block 0 brings into the ledger. */
  function Brought(m: Message): (n: nat) {
    match m
    case OldUtxoDeclaration(d) => OldValues(d.outputs, |d.outputs|)
    case Transfer(tx) => Plain(OutputValues(tx.outputs))
    case _ => 0
  }

  function Declared(ms: seq<Message>): (total: nat) {
    if ms == [] then 0 else Brought(ms[0]) + Declared(ms[1..])
  }

  lemma {:induction false} DeclarationTotal(utxos: Utxos.Ledger<nat>, decl: Declaration)
    requires DeclareOld(utxos, decl).Ok?
    ensures Utxos.Total(DeclareOld(utxos, decl).value) ==
            Utxos.Total(utxos) + OldValues(decl.outputs, |decl.outputs|)
  {
    EnumerateTotal(decl.outputs, |decl.outputs|);
    Utxos.AddTotal(utxos, decl.id, Enumerate(decl.outputs, |decl.outputs|));
  }

  lemma {:induction false} MessageTotal(env: Env, l: Ledger, allow: bool, m: Message)
    requires Block0Message(env, l, allow, m).Ok?
    ensures Total(Block0Message(env, l, allow, m).value) == Total(l) + Brought(m)
  {
    match m
    case OldUtxoDeclaration(decl) => DeclarationTotal(l.oldutxos, decl);
    case Transfer(tx) => TransactionOutputTotal(l, allow, tx.id, tx.outputs);
    case _ =>
  }

  lemma {:induction false} MessagesTotal(env: Env, l: Ledger, allow: bool, ms: seq<Message>)
    requires Block0Messages(env, l, allow, ms).Ok?
    ensures Total(Block0Messages(env, l, allow, ms).value) == Total(l) + Declared(ms)
    decreases |ms|
  {
    if ms != [] {
      MessageTotal(env, l, allow, ms[0]);
      var next := Block0Message(env, l, allow, ms[0]).value;
      MessagesTotal(env, next, AllowedAfter(env, l, allow, ms[0]), ms[1..]);
    }
  }

  lemma {:induction false} EmptyTotal(l: Ledger)
    requires l.utxos.Keys == {} && l.oldutxos.Keys == {} && l.accounts.Keys == {}
    ensures Total(l) == 0
  {
    SumEmpty(l.utxos, Utxos.UnspentTotal);
    SumEmpty(l.oldutxos, Utxos.UnspentTotal);
    SumEmpty(l.accounts, Accounts.Balance);
  }

  predicate OutputError(e: Error) {
    e.ZeroOutput? || e.InvalidDiscrimination? || e.AccountErr?
  }

  lemma {:induction false} OutputErrors(s: OutputState, l: Ledger, allow: bool, outputs: seq<Output>, i: nat)
    requires i <= |outputs| <= 255 && ApplyOutputs(s, l, allow, outputs, i).Err?
    ensures OutputError(ApplyOutputs(s, l, allow, outputs, i).error)
    decreases |outputs| - i
  {
    match ApplyOutput(s, l, allow, i, outputs[i])
    case Err(_) =>
    case Ok(s1) => OutputErrors(s1, l, allow, outputs, i + 1);
  }

  lemma {:induction false} MessagesNotTooBig(env: Env, l: Ledger, allow: bool, ms: seq<Message>)
    ensures Block0Messages(env, l, allow, ms) != Err(Block0UtxoTotalValueTooBig)
    decreases |ms|
  {
    if ms != [] {
      if ms[0].Transfer? && |ms[0].tx.outputs| <= 255 {
        var start := OutputState(l.accounts, []);
        if ApplyOutputs(start, l, allow, ms[0].tx.outputs, 0).Err? {
          OutputErrors(start, l, allow, ms[0].tx.outputs, 0);
        }
      }
      match Block0Message(env, l, allow, ms[0])
      case Err(_) =>
      case Ok(next) => MessagesNotTooBig(env, next, AllowedAfter(env, l, allow, ms[0]), ms[1..]);
    }
  }

  /** The total is what block 0 declares, and it fits in a value; one that does not is the only cause of its error. */
  lemma {:induction false} Block0Total(env: Env, contents: seq<Message>)
    ensures var r := Block0(env, contents);
            && (r.Ok? ==> Total(r.value) == Declared(contents[1..]) <= MAX)
            && (r == Err(Block0UtxoTotalValueTooBig) ==> contents != [] && Declared(contents[1..]) > MAX)
  {
    if contents != [] && contents[0].Initial? {
      var start := Empty(DiscriminationOf(contents[0].params));
      EmptyTotal(start);
      MessagesNotTooBig(env, start, false, contents[1..]);
      if Block0Messages(env, start, false, contents[1..]).Ok? {
        MessagesTotal(env, start, false, contents[1..]);
      }
    }
  }

  // ----- which outputs it holds

  /** A message declares this output. */
  predicate DeclaresOld(m: Message, tid: TxId, i: Utxos.Index, o: Utxos.Output<nat>) {
    m.OldUtxoDeclaration? && m.decl.id == tid && i < |m.decl.outputs| && m.decl.outputs[i] == o
  }

  predicate DeclaresNew(m: Message, tid: TxId, i: Utxos.Index, o: Output) {
    m.Transfer? && m.tx.id == tid && i < |m.tx.outputs| && m.tx.outputs[i] == o && !o.address.kind.Account?
  }

  lemma {:induction false} MessageHoldsOld(env: Env, l: Ledger, allow: bool, m: Message, tid: TxId, i: Utxos.Index,
                                           o: Utxos.Output<nat>)
    requires Block0Message(env, l, allow, m).Ok?
    ensures Utxos.Holds(Block0Message(env, l, allow, m).value.oldutxos, tid, i, o) <==>
            Utxos.Holds(l.oldutxos, tid, i, o) || DeclaresOld(m, tid, i, o)
  {
    if m.OldUtxoDeclaration? {
      var outs := Enumerate(m.decl.outputs, |m.decl.outputs|);
      Utxos.AddHolds(l.oldutxos, m.decl.id, outs, tid, i, o);
      assert Utxos.Indexed(i, o) in outs <==> i < |outs| && outs[i] == Utxos.Indexed(i, o);
    }
  }

  lemma {:induction false} HoldsOld(env: Env, l: Ledger, allow: bool, ms: seq<Message>, tid: TxId, i: Utxos.Index,
                                    o: Utxos.Output<nat>)
    requires Block0Messages(env, l, allow, ms).Ok?
    ensures Utxos.Holds(Block0Messages(env, l, allow, ms).value.oldutxos, tid, i, o) <==>
            Utxos.Holds(l.oldutxos, tid, i, o) || exists k :: 0 <= k < |ms| && DeclaresOld(ms[k], tid, i, o)
    decreases |ms|
  {
    if ms != [] {
      MessageHoldsOld(env, l, allow, ms[0], tid, i, o);
      var next := Block0Message(env, l, allow, ms[0]).value;
      HoldsOld(env, next, AllowedAfter(env, l, allow, ms[0]), ms[1..], tid, i, o);
      assert forall k :: 1 <= k < |ms| ==> ms[k] == ms[1..][k - 1];
      assert (exists k :: 0 <= k < |ms| && DeclaresOld(ms[k], tid, i, o)) <==>
             DeclaresOld(ms[0], tid, i, o) || exists k :: 0 <= k < |ms[1..]| && DeclaresOld(ms[1..][k], tid, i, o);
    }
  }

  /** The legacy outputs it holds are exactly those that its declarations list, at their positions. */
  lemma {:induction false} Block0HoldsOld(env: Env, contents: seq<Message>, tid: TxId, i: Utxos.Index,
                                          o: Utxos.Output<nat>)
    requires Block0(env, contents).Ok?
    ensures Utxos.Holds(Block0(env, contents).value.oldutxos, tid, i, o) <==>
            exists k :: 1 <= k < |contents| && DeclaresOld(contents[k], tid, i, o)
  {
    var ms := contents[1..];
    HoldsOld(env, Empty(DiscriminationOf(contents[0].params)), false, ms, tid, i, o);
    assert forall k :: 1 <= k < |contents| ==> contents[k] == ms[k - 1];
    assert forall k :: 0 <= k < |ms| ==> ms[k] == contents[k + 1];
  }

  /** The outputs gathered from a transaction are those that do not go to an account. */
  lemma {:induction false} PendingHolds(s: OutputState, l: Ledger, allow: bool, outputs: seq<Output>, k: nat,
                                        i: Utxos.Index, o: Output)
    requires k <= |outputs| <= 255 && ApplyOutputs(s, l, allow, outputs, k).Ok?
    ensures Utxos.Indexed(i, o) in ApplyOutputs(s, l, allow, outputs, k).value.pending <==>
            Utxos.Indexed(i, o) in s.pending || (k <= i < |outputs| && outputs[i] == o && !o.address.kind.Account?)
    decreases |outputs| - k
  {
    if k < |outputs| {
      var s1 := ApplyOutput(s, l, allow, k, outputs[k]).value;
      PendingHolds(s1, l, allow, outputs, k + 1, i, o);
    }
  }

  lemma {:induction false} MessageHoldsNew(env: Env, l: Ledger, allow: bool, m: Message, tid: TxId, i: Utxos.Index,
                                           o: Output)
    requires Block0Message(env, l, allow, m).Ok?
    ensures Utxos.Holds(Block0Message(env, l, allow, m).value.utxos, tid, i, o) <==>
            Utxos.Holds(l.utxos, tid, i, o) || DeclaresNew(m, tid, i, o)
  {
    if m.Transfer? {
      var start := OutputState(l.accounts, []);
      var pending := ApplyOutputs(start, l, allow, m.tx.outputs, 0).value.pending;
      OutputsAddTheirValues(start, l, allow, m.tx.outputs, 0);
      PendingHolds(start, l, allow, m.tx.outputs, 0, i, o);
      Utxos.AddHolds(l.utxos, m.tx.id, pending, tid, i, o);
    }
  }

  lemma {:induction false} HoldsNew(env: Env, l: Ledger, allow: bool, ms: seq<Message>, tid: TxId, i: Utxos.Index,
                                    o: Output)
    requires Block0Messages(env, l, allow, ms).Ok?
    ensures Utxos.Holds(Block0Messages(env, l, allow, ms).value.utxos, tid, i, o) <==>
            Utxos.Holds(l.utxos, tid, i, o) || exists k :: 0 <= k < |ms| && DeclaresNew(ms[k], tid, i, o)
    decreases |ms|
  {
    if ms != [] {
      MessageHoldsNew(env, l, allow, ms[0], tid, i, o);
      var next := Block0Message(env, l, allow, ms[0]).value;
      HoldsNew(env, next, AllowedAfter(env, l, allow, ms[0]), ms[1..], tid, i, o);
      assert forall k :: 1 <= k < |ms| ==> ms[k] == ms[1..][k - 1];
      assert (exists k :: 0 <= k < |ms| && DeclaresNew(ms[k], tid, i, o)) <==>
             DeclaresNew(ms[0], tid, i, o) || exists k :: 0 <= k < |ms[1..]| && DeclaresNew(ms[1..][k], tid, i, o);
    }
  }

  /** The new outputs it holds are exactly those of its transactions that do not go to an account. */
  lemma {:induction false} Block0HoldsNew(env: Env, contents: seq<Message>, tid: TxId, i: Utxos.Index, o: Output)
    requires Block0(env, contents).Ok?
    ensures Utxos.Holds(Block0(env, contents).value.utxos, tid, i, o) <==>
            exists k :: 1 <= k < |contents| && DeclaresNew(contents[k], tid, i, o)
  {
    var ms := contents[1..];
    HoldsNew(env, Empty(DiscriminationOf(contents[0].params)), false, ms, tid, i, o);
    assert forall k :: 1 <= k < |contents| ==> contents[k] == ms[k - 1];
    assert forall k :: 0 <= k < |ms| ==> ms[k] == contents[k + 1];
  }

  // ----- which accounts it holds

  /** What the outputs from position i on pay to an account. */
  function PaidFrom(outputs: seq<Output>, i: nat, a: Accounts.Identifier): (n: nat)
    requires i <= |outputs|
    decreases |outputs| - i
  {
    if i == |outputs| then 0
    else (if outputs[i].address.kind == Account(a) then outputs[i].value else 0) + PaidFrom(outputs, i + 1, a)
  }

  function Paid(ms: seq<Message>, a: Accounts.Identifier): (n: nat) {
    if ms == [] then 0
    else (if ms[0].Transfer? then PaidFrom(ms[0].tx.outputs, 0, a) else 0) + Paid(ms[1..], a)
  }

  /** The accounts have received exactly this much, without spending. */
  ghost predicate Received(accounts: Accounts.Ledger, accounts': Accounts.Ledger, a: Accounts.Identifier, n: nat) {
    && (a in accounts' <==> a in accounts || n > 0)
    && (a in accounts' ==>
          && accounts'[a].value == (if a in accounts then accounts[a].value else 0) + n
          && accounts'[a].counter == if a in accounts then accounts[a].counter else 0)
  }

  lemma {:induction false} OutputsReceived(s: OutputState, l: Ledger, allow: bool, outputs: seq<Output>, i: nat,
                                           a: Accounts.Identifier)
    requires i <= |outputs| <= 255 && ApplyOutputs(s, l, allow, outputs, i).Ok?
    ensures Received(s.accounts, ApplyOutputs(s, l, allow, outputs, i).value.accounts, a, PaidFrom(outputs, i, a))
    decreases |outputs| - i
  {
    if i < |outputs| {
      var s1 := ApplyOutput(s, l, allow, i, outputs[i]).value;
      OutputReceived(s, l, allow, i, outputs[i], a);
      OutputsReceived(s1, l, allow, outputs, i + 1, a);
    }
  }

  lemma {:induction false} OutputReceived(s: OutputState, l: Ledger, allow: bool, i: Utxos.Index, o: Output,
                                          a: Accounts.Identifier)
    requires ApplyOutput(s, l, allow, i, o).Ok?
    ensures Received(s.accounts, ApplyOutput(s, l, allow, i, o).value.accounts, a,
                     if o.address.kind == Account(a) then o.value else 0)
  {
  }

  lemma {:induction false} MessagesReceived(env: Env, l: Ledger, allow: bool, ms: seq<Message>, a: Accounts.Identifier)
    requires Block0Messages(env, l, allow, ms).Ok?
    ensures Received(l.accounts, Block0Messages(env, l, allow, ms).value.accounts, a, Paid(ms, a))
    decreases |ms|
  {
    if ms != [] {
      if ms[0].Transfer? {
        OutputsReceived(OutputState(l.accounts, []), l, allow, ms[0].tx.outputs, 0, a);
      }
      var next := Block0Message(env, l, allow, ms[0]).value;
      MessagesReceived(env, next, AllowedAfter(env, l, allow, ms[0]), ms[1..], a);
    }
  }

  /** Its accounts are those that its transactions pay to, with what they pay and with counter zero. */
  lemma {:induction false} Block0HoldsAccount(env: Env, contents: seq<Message>, a: Accounts.Identifier)
    requires Block0(env, contents).Ok?
    ensures var accounts, paid := Block0(env, contents).value.accounts, Paid(contents[1..], a);
            && (a in accounts <==> paid > 0)
            && (a in accounts ==> accounts[a].value == paid && accounts[a].counter == 0)
  {
    MessagesReceived(env, Empty(DiscriminationOf(contents[0].params)), false, contents[1..], a);
  }

  /** So over every run from block 0, the counters of its accounts are 0, 1, 2 and so on as well. */
  lemma {:induction false} Block0Counters(env: Env, contents: seq<Message>, blocks: seq<Block>,
                                          a: Accounts.Identifier, j: nat)
    requires Block0(env, contents).Ok? && a in Block0(env, contents).value.accounts
    requires ApplyRun(env, Block0(env, contents).value, blocks).Ok?
    requires var log := RunLog(env, Block0(env, contents).value, blocks, a);
             SameLifetime(log, 0, j) && log[j].Used?
    ensures RunLog(env, Block0(env, contents).value, blocks, a)[j].counter == j
  {
    Block0HoldsAccount(env, contents, a);
    RunCountersContinue(env, Block0(env, contents).value, blocks, a, j);
  }
}
