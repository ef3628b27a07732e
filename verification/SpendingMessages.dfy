/** The message that the owner of an account signs (chain-impl-mockchain/src/transaction/witness.rs). */
module SpendingMessages {
  import opened Wrappers
  import opened Bytes
  import Accounts
  import Utxos

  const WITNESS_TAG_ACCOUNT: Byte := 2

  function CounterBytes(c: Accounts.Counter): (s: seq<Byte>)
    ensures |s| == 4
  {
    Encode(c, 4)
  }

  /** A write into a vector, which panics outside of it. */
  function WriteAt(v: seq<Byte>, i: nat, b: Byte): (r: Option<seq<Byte>>) {
    if i < |v| then Some(v[i := b]) else None
  }

  /** The tag, the transaction and the counter; a tag is written over the first byte, or put in front. */
  datatype Builder = AsWritten | AsIntended {

    function Build(id: Utxos.TxId, c: Accounts.Counter): (m: Option<seq<Byte>>) {
      var empty: seq<Byte> := [];
      match (if AsWritten? then WriteAt(empty, 0, WITNESS_TAG_ACCOUNT) else Some(empty + [WITNESS_TAG_ACCOUNT]))
      case None => None
      case Some(v) => Some(v + id.bytes + CounterBytes(c))
    }
  }

  /** The code writes into an empty vector, so it never gets past the tag. */
  lemma {:induction false} AsWrittenPanics(id: Utxos.TxId, c: Accounts.Counter)
    ensures AsWritten.Build(id, c) == None
  {
  }

  /** The intended message, which names the transaction and the counter. */
  function ToSign(id: Utxos.TxId, c: Accounts.Counter): (m: seq<Byte>) {
    AsIntended.Build(id, c).value
  }

  lemma {:induction false} CounterRoundTrip(c: Accounts.Counter)
    ensures Val(CounterBytes(c)) == c
  {
    Pow256Of4(4);
    EncodeVal(c, 4);
  }

  /** Equal messages are for the same transaction and the same counter. */
  lemma {:induction false} MessageInjective(id: Utxos.TxId, c: Accounts.Counter, id': Utxos.TxId, c': Accounts.Counter)
    requires ToSign(id, c) == ToSign(id', c')
    ensures id == id' && c == c'
  {
    var m := ToSign(id, c);
    assert m[1..33] == id.bytes && m[1..33] == id'.bytes;
    assert m[33..] == CounterBytes(c) && m[33..] == CounterBytes(c');
    CounterRoundTrip(c);
    CounterRoundTrip(c');
  }
}
