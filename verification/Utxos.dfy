/** Unspent outputs by transaction (chain-impl-mockchain/src/utxo.rs). */
module Utxos {
  import opened Wrappers
  import opened Values
  import opened MapSum
  import opened Bytes

  type Hash = b: seq<Byte> | |b| == 32 witness Encode(0, 32)

  /** A transaction is known by the hash of its contents. */
  datatype TxId = TxId(bytes: Hash)

  /** An output index; the value 255 marks account inputs. */
  type Index = i: nat | i < 255

  datatype Output<+A> = Output(address: A, value: Value)

  datatype UtxoError = AlreadyExists | TransactionNotFound | IndexNotFound

  type Unspents<A> = map<Index, Output<A>>

  type Ledger<A> = map<TxId, Unspents<A>>

  datatype Indexed<+A> = Indexed(index: Index, output: Output<A>)

  // ----- adding

  /** Later outputs replace earlier ones of the same index. */
  function Gather<A>(outs: seq<Indexed<A>>): (m: Unspents<A>) {
    if outs == [] then map[] else Gather(outs[..|outs| - 1])[outs[|outs| - 1].index := outs[|outs| - 1].output]
  }

  method FromOutputs<A>(outs: seq<Indexed<A>>) returns (m: Unspents<A>)
    ensures m == Gather(outs)
  {
    m := map[];
    for i := 0 to |outs|
      invariant m == Gather(outs[..i])
    {
      assert outs[..i + 1][..i] == outs[..i];
      m := m[outs[i].index := outs[i].output];
    }
    assert outs[..|outs|] == outs;
  }

  function Add<A>(l: Ledger<A>, tid: TxId, outs: seq<Indexed<A>>): (r: Result<Ledger<A>, UtxoError>) {
    if tid in l then Err(AlreadyExists) else Ok(l[tid := Gather(outs)])
  }

  // ----- removing

  function RemoveInput<A>(u: Unspents<A>, index: Index): (r: Result<(Unspents<A>, Output<A>), UtxoError>) {
    if index in u then Ok((u - {index}, u[index])) else Err(IndexNotFound)
  }

  /** Put back what is left of a transaction, or drop it when nothing is. */
  function PutBack<A>(l: Ledger<A>, tid: TxId, rest: Unspents<A>): (r: Ledger<A>) {
    if |rest| == 0 then l - {tid} else l[tid := rest]
  }

  function Remove<A>(l: Ledger<A>, tid: TxId, index: Index): (r: Result<(Ledger<A>, Output<A>), UtxoError>) {
    if tid !in l then Err(TransactionNotFound)
    else
      match RemoveInput(l[tid], index)
      case Err(e) => Err(e)
      case Ok((rest, o)) => Ok((PutBack(l, tid, rest), o))
  }

  /** Several outputs of one transaction, one after the other, by single removals. */
  function RemoveEach<A>(l: Ledger<A>, tid: TxId,
                         indices: seq<Index>): (r: Result<(Ledger<A>, seq<Output<A>>), UtxoError>)
  {
    if indices == [] then Ok((l, []))
    else
      match RemoveEach(l, tid, indices[..|indices| - 1])
      case Err(e) => Err(e)
      case Ok((l', os)) =>
        match Remove(l', tid, indices[|indices| - 1])
        case Err(e) => Err(e)
        case Ok((l'', o)) => Ok((l'', os + [o]))
  }

  ghost predicate AllThere<A>(u: Unspents<A>, indices: seq<Index>) {
    && (forall k :: 0 <= k < |indices| ==> indices[k] in u)
    && (forall j, k :: 0 <= j < k < |indices| ==> indices[j] != indices[k])
  }

  function Taken<A>(u: Unspents<A>, indices: seq<Index>): (os: seq<Output<A>>)
    requires forall k :: 0 <= k < |indices| ==> indices[k] in u
  {
    seq(|indices|, k requires 0 <= k < |indices| => u[indices[k]])
  }

  /** All or nothing: each index must be unspent, and must be given once. */
  method RemoveMultiple<A>(l: Ledger<A>, tid: TxId, indices: seq<Index>)
    returns (r: Result<(Ledger<A>, seq<Output<A>>), UtxoError>)
    ensures tid !in l ==> r == Err(TransactionNotFound)
    ensures tid in l && !AllThere(l[tid], indices) ==> r == Err(IndexNotFound)
    ensures tid in l && AllThere(l[tid], indices) ==>
              r == Ok((PutBack(l, tid, l[tid] - (set i | i in indices)), Taken(l[tid], indices)))
  {
    if tid !in l {
      return Err(TransactionNotFound);
    }
    var u := l[tid];
    var treemap := u;
    var outputs: seq<Output<A>> := [];
    for k := 0 to |indices|
      invariant AllThere(u, indices[..k])
      invariant treemap == u - (set i | i in indices[..k])
      invariant outputs == Taken(u, indices[..k])
    {
      var index := indices[k];
      assert indices[..k + 1] == indices[..k] + [index];
      match RemoveInput(treemap, index) {
        case Err(e) =>
          assert !AllThere(u, indices);
          return Err(e);
        case Ok((t, o)) =>
          outputs := outputs + [o];
          treemap := t;
      }
    }
    assert indices[..|indices|] == indices;
    return Ok((PutBack(l, tid, treemap), outputs));
  }

  lemma {:induction false} RemoveAfter<A>(l: Ledger<A>, tid: TxId, rest: Unspents<A>, index: Index)
    requires tid in l && index in rest
    ensures Remove(PutBack(l, tid, rest), tid, index) == Ok((PutBack(l, tid, rest - {index}), rest[index]))
  {
    assert |rest| != 0;
    var l' := l[tid := rest];
    assert PutBack(l, tid, rest) == l';
    assert PutBack(l', tid, rest - {index}) == PutBack(l, tid, rest - {index}) by {
      assert l' - {tid} == l - {tid};
    }
  }

  lemma {:induction false} RestStep<A>(u: Unspents<A>, indices: seq<Index>, n: nat)
    requires AllThere(u, indices) && n + 1 == |indices|
    ensures AllThere(u, indices[..n])
    ensures var rest := u - (set i | i in indices[..n]);
            indices[n] in rest && rest[indices[n]] == u[indices[n]] && rest - {indices[n]} == u - (set i | i in indices)
    ensures Taken(u, indices) == Taken(u, indices[..n]) + [u[indices[n]]]
  {
    assert indices == indices[..n] + [indices[n]];
  }

  /** Removing several outputs at once is removing them one after the other. */
  lemma {:induction false} RemoveEachIsMultiple<A>(l: Ledger<A>, tid: TxId, indices: seq<Index>)
    requires tid in l && AllThere(l[tid], indices) && indices != []
    ensures RemoveEach(l, tid, indices) ==
            Ok((PutBack(l, tid, l[tid] - (set i | i in indices)), Taken(l[tid], indices)))
  {
    var u, n := l[tid], |indices| - 1;
    var rest := u - (set i | i in indices[..n]);
    RestStep(u, indices, n);
    assert RemoveEach(l, tid, indices[..n]) == Ok((PutBack(l, tid, rest), Taken(u, indices[..n]))) by {
      if n == 0 {
        assert rest == u && |u| != 0;
        assert l[tid := u] == l;
      } else {
        RemoveEachIsMultiple(l, tid, indices[..n]);
      }
    }
    RemoveAfter(l, tid, rest, indices[n]);
  }

  // ----- the value held

  function OutputValue<A>(o: Output<A>): (n: nat) {
    o.value
  }

  ghost function UnspentTotal<A>(u: Unspents<A>): (n: nat) {
    Sum(u, OutputValue)
  }

  ghost function Total<A>(l: Ledger<A>): (n: nat) {
    Sum(l, UnspentTotal)
  }

  /** Spending an output takes its value out of the ledger. */
  lemma {:induction false} RemoveTotal<A>(l: Ledger<A>, tid: TxId, index: Index)
    requires Remove(l, tid, index).Ok?
    ensures Total(Remove(l, tid, index).value.0) + Remove(l, tid, index).value.1.value == Total(l)
  {
    var u := l[tid];
    var rest := u - {index};
    SumRemove(u, OutputValue, index);
    if |rest| == 0 {
      assert rest == map[];
      SumRemove(l, UnspentTotal, tid);
    } else {
      SumReplace(l, UnspentTotal, tid, rest);
    }
  }

  function PlainTotal<A>(outs: seq<Indexed<A>>): (n: nat) {
    if outs == [] then 0 else PlainTotal(outs[..|outs| - 1]) + outs[|outs| - 1].output.value
  }

  lemma {:induction false} PlainTotalAppend<A>(outs: seq<Indexed<A>>, last: Indexed<A>)
    ensures PlainTotal(outs + [last]) == PlainTotal(outs) + last.output.value
  {
    assert (outs + [last])[..|outs|] == outs;
  }

  predicate DistinctIndices<A>(outs: seq<Indexed<A>>) {
    forall j, k :: 0 <= j < k < |outs| ==> outs[j].index != outs[k].index
  }

  lemma {:induction false} GatherKeys<A>(outs: seq<Indexed<A>>, i: Index)
    ensures i in Gather(outs) <==> exists k :: 0 <= k < |outs| && outs[k].index == i
  {
    if outs != [] {
      var n := |outs| - 1;
      GatherKeys(outs[..n], i);
      if i in Gather(outs[..n]) {
        var k :| 0 <= k < n && outs[..n][k].index == i;
        assert outs[k].index == i;
      }
      if exists k :: 0 <= k < n && outs[k].index == i {
        var k :| 0 <= k < n && outs[k].index == i;
        assert outs[..n][k].index == i;
      }
    }
  }

  lemma {:induction false} GatherTotal<A>(outs: seq<Indexed<A>>)
    requires DistinctIndices(outs)
    ensures UnspentTotal(Gather(outs)) == PlainTotal(outs)
  {
    if outs != [] {
      var n := |outs| - 1;
      GatherTotal(outs[..n]);
      GatherKeys(outs[..n], outs[n].index);
      SumInsert(Gather(outs[..n]), OutputValue, outs[n].index, outs[n].output);
    }
  }

  /** Adding the outputs of a transaction adds their values. */
  lemma {:induction false} AddTotal<A>(l: Ledger<A>, tid: TxId, outs: seq<Indexed<A>>)
    requires Add(l, tid, outs).Ok? && DistinctIndices(outs)
    ensures Total(Add(l, tid, outs).value) == Total(l) + PlainTotal(outs)
  {
    GatherTotal(outs);
    SumInsert(l, UnspentTotal, tid, Gather(outs));
  }

  // ----- which outputs are unspent

  predicate IsUnspent<A>(l: Ledger<A>, tid: TxId, index: Index) {
    tid in l && index in l[tid]
  }

  predicate Holds<A(==)>(l: Ledger<A>, tid: TxId, index: Index, o: Output<A>) {
    IsUnspent(l, tid, index) && l[tid][index] == o
  }

  /** Adding a transaction adds exactly the outputs given. */
  lemma {:induction false} AddHolds<A>(l: Ledger<A>, id: TxId, outs: seq<Indexed<A>>, tid: TxId, i: Index, o: Output<A>)
    requires Add(l, id, outs).Ok? && DistinctIndices(outs)
    ensures Holds(Add(l, id, outs).value, tid, i, o) <==>
            Holds(l, tid, i, o) || (tid == id && Indexed(i, o) in outs)
  {
    GatherKeys(outs, i);
    if i in Gather(outs) {
      var k :| 0 <= k < |outs| && outs[k].index == i;
      GatherAt(outs, k);
    }
    if Indexed(i, o) in outs {
      var k :| 0 <= k < |outs| && outs[k] == Indexed(i, o);
      GatherAt(outs, k);
    }
  }

  /** A removal succeeds exactly on an unspent output, and leaves every other output as it was. */
  lemma {:induction false} RemoveSpends<A>(l: Ledger<A>, tid: TxId, index: Index)
    ensures Remove(l, tid, index).Ok? <==> IsUnspent(l, tid, index)
    ensures IsUnspent(l, tid, index) ==>
              var (l', o) := Remove(l, tid, index).value;
              && o == l[tid][index]
              && forall t, i :: IsUnspent(l', t, i) <==> IsUnspent(l, t, i) && !(t == tid && i == index)
  {
  }

  // ----- iteration

  datatype Entry<+A> = Entry(tid: TxId, index: Index, output: Output<A>)

  /** The unspent outputs of one transaction, in some order. */
  datatype Row<+A> = Row(tid: TxId, outs: seq<Indexed<A>>)

  /** The order in which the two maps are traversed: every transaction once, and each of its outputs once. */
  ghost predicate RowOf<A>(row: Row<A>, l: Ledger<A>) {
    row.tid in l && DistinctIndices(row.outs) && Gather(row.outs) == l[row.tid]
  }

  ghost predicate Rows<A>(rows: seq<Row<A>>, l: Ledger<A>) {
    if rows == [] then l == map[]
    else RowOf(rows[0], l) && Rows(rows[1..], l - {rows[0].tid})
  }

  lemma {:induction false} OneKeyMore<A>(u: Unspents<A>, todo: set<Index>, i: Index)
    requires todo <= u.Keys && i in todo
    ensures (u - todo)[i := u[i]] == u - (todo - {i})
  {
  }

  lemma {:induction false} GatherNext<A>(u: Unspents<A>, outs: seq<Indexed<A>>, todo: set<Index>, i: Index)
    requires todo <= u.Keys && i in todo && DistinctIndices(outs) && Gather(outs) == u - todo
    ensures DistinctIndices(outs + [Indexed(i, u[i])]) && Gather(outs + [Indexed(i, u[i])]) == u - (todo - {i})
  {
    GatherKeys(outs, i);
    var more := outs + [Indexed(i, u[i])];
    assert more[..|outs|] == outs;
    assert Gather(more) == (u - todo)[i := u[i]];
    OneKeyMore(u, todo, i);
  }

  /** Some order of the outputs of a transaction. */
  method ListOutputs<A>(u: Unspents<A>) returns (outs: seq<Indexed<A>>)
    ensures DistinctIndices(outs) && Gather(outs) == u
  {
    outs := [];
    var todo := u.Keys;
    while todo != {}
      invariant todo <= u.Keys && DistinctIndices(outs) && Gather(outs) == u - todo
      decreases |todo|
    {
      var i :| i in todo;
      GatherNext(u, outs, todo, i);
      outs := outs + [Indexed(i, u[i])];
      todo := todo - {i};
    }
  }

  /** Some order of the transactions. */
  method ListRows<A>(l: Ledger<A>) returns (rows: seq<Row<A>>)
    ensures Rows(rows, l)
    decreases |l|
  {
    if l == map[] {
      return [];
    }
    var tid :| tid in l;
    var outs := ListOutputs(l[tid]);
    var rest := ListRows(l - {tid});
    rows := [Row(tid, outs)] + rest;
    assert rows[1..] == rest;
  }

  function EntriesOf<A>(tid: TxId, outs: seq<Indexed<A>>): (s: seq<Entry<A>>) {
    if outs == [] then [] else [Entry(tid, outs[0].index, outs[0].output)] + EntriesOf(tid, outs[1..])
  }

  function Entries<A>(rows: seq<Row<A>>): (s: seq<Entry<A>>) {
    if rows == [] then [] else EntriesOf(rows[0].tid, rows[0].outs) + Entries(rows[1..])
  }

  class Iter<A> {
    var rows: seq<Row<A>>
    var unspents: Option<Row<A>>

    constructor (rows: seq<Row<A>>)
      ensures Rest() == Entries(rows)
    {
      this.rows, unspents := rows, None;
    }

    /** What is still to come. */
    ghost function Rest(): (s: seq<Entry<A>>)
      reads this
    {
      (match unspents case None => [] case Some(row) => EntriesOf(row.tid, row.outs)) + Entries(rows)
    }

    /** The next entry, if there is one. */
    method Next() returns (r: Option<Entry<A>>)
      modifies this
      ensures r == if old(Rest()) == [] then None else Some(old(Rest())[0])
      ensures Rest() == if old(Rest()) == [] then [] else old(Rest())[1..]
      decreases |rows|, unspents.Some?
    {
      match unspents {
        case None =>
          if rows == [] {
            return None;
          }
          assert Rest() == EntriesOf(rows[0].tid, rows[0].outs) + Entries(rows[1..]);
          unspents := Some(rows[0]);
          rows := rows[1..];
          r := Next();
        case Some(row) =>
          if row.outs == [] {
            assert Rest() == Entries(rows);
            unspents := None;
            r := Next();
          } else {
            r := Some(Entry(row.tid, row.outs[0].index, row.outs[0].output));
            assert Rest() == [r.value] + (EntriesOf(row.tid, row.outs[1..]) + Entries(rows));
            unspents := Some(row.(outs := row.outs[1..]));
          }
      }
    }
  }

  /** Iterating to the end. */
  method Drain<A>(iter: Iter<A>) returns (es: seq<Entry<A>>)
    modifies iter
    ensures es == old(iter.Rest())
  {
    ghost var all, rest := iter.Rest(), iter.Rest();
    es := [];
    while true
      invariant iter.Rest() == rest && es + rest == all
      decreases |rest|
    {
      var next := iter.Next();
      if next.None? {
        assert es + rest == es;
        return;
      }
      assert es + rest == (es + [rest[0]]) + rest[1..];
      es := es + [next.value];
      rest := rest[1..];
    }
  }

  /** Iterating over a ledger yields its unspent outputs, each once, and so its total. */
  method Collect<A>(l: Ledger<A>) returns (es: seq<Entry<A>>)
    ensures ListsUnspent(es, l) && EntriesTotal(es) == Total(l)
  {
    var rows := ListRows(l);
    var iter := new Iter(rows);
    es := Drain(iter);
    RowsTotal(rows, l);
    RowsEntries(rows, l);
  }

  function EntriesTotal<A>(es: seq<Entry<A>>): (n: nat) {
    if es == [] then 0 else es[0].output.value + EntriesTotal(es[1..])
  }

  lemma {:induction false} EntriesTotalConcat<A>(a: seq<Entry<A>>, b: seq<Entry<A>>)
    ensures EntriesTotal(a + b) == EntriesTotal(a) + EntriesTotal(b)
  {
    if a == [] {
      assert a + b == b;
    } else {
      assert (a + b)[1..] == a[1..] + b;
      EntriesTotalConcat(a[1..], b);
    }
  }

  lemma {:induction false} PlainTotalCons<A>(outs: seq<Indexed<A>>)
    requires outs != []
    ensures PlainTotal(outs) == outs[0].output.value + PlainTotal(outs[1..])
  {
    var n := |outs| - 1;
    if n > 0 {
      PlainTotalCons(outs[..n]);
      assert outs[..n][1..] == outs[1..][..n - 1];
    }
  }

  lemma {:induction false} RowTotal<A>(tid: TxId, outs: seq<Indexed<A>>)
    ensures EntriesTotal(EntriesOf(tid, outs)) == PlainTotal(outs)
  {
    if outs != [] {
      RowTotal(tid, outs[1..]);
      PlainTotalCons(outs);
    }
  }

  /** The values of the entries add up to the total of the ledger. */
  lemma {:induction false} RowsTotal<A>(rows: seq<Row<A>>, l: Ledger<A>)
    requires Rows(rows, l)
    ensures EntriesTotal(Entries(rows)) == Total(l)
    decreases |rows|
  {
    if rows != [] {
      var tid, outs := rows[0].tid, rows[0].outs;
      RowsTotal(rows[1..], l - {tid});
      SumRemove(l, UnspentTotal, tid);
      GatherTotal(outs);
      RowTotal(tid, outs);
      EntriesTotalConcat(EntriesOf(tid, outs), Entries(rows[1..]));
    }
  }

  /** The entries list the unspent outputs, each once. */
  ghost predicate ListsUnspent<A>(es: seq<Entry<A>>, l: Ledger<A>) {
    && (forall t, i :: IsUnspent(l, t, i) ==> Entry(t, i, l[t][i]) in es)
    && (forall e :: e in es ==> IsUnspent(l, e.tid, e.index) && l[e.tid][e.index] == e.output)
    && (forall j, k :: 0 <= j < k < |es| ==> es[j].tid != es[k].tid || es[j].index != es[k].index)
  }

  lemma {:induction false} EntriesOfAt<A>(tid: TxId, outs: seq<Indexed<A>>, k: nat)
    requires k < |outs|
    ensures |EntriesOf(tid, outs)| == |outs| && EntriesOf(tid, outs)[k] == Entry(tid, outs[k].index, outs[k].output)
  {
    if |outs| > 1 {
      EntriesOfAt(tid, outs[1..], if k > 0 then k - 1 else 0);
    }
  }

  lemma {:induction false} GatherAt<A>(outs: seq<Indexed<A>>, k: nat)
    requires DistinctIndices(outs) && k < |outs|
    ensures outs[k].index in Gather(outs) && Gather(outs)[outs[k].index] == outs[k].output
  {
    if k < |outs| - 1 {
      GatherAt(outs[..|outs| - 1], k);
    }
  }

  lemma {:induction false} RowEntries<A>(row: Row<A>, l: Ledger<A>)
    requires RowOf(row, l)
    ensures ListsUnspent(EntriesOf(row.tid, row.outs), map[row.tid := l[row.tid]])
  {
    var es, u := EntriesOf(row.tid, row.outs), l[row.tid];
    var single: Ledger<A> := map[row.tid := u];
    assert |es| == |row.outs| by {
      if row.outs != [] {
        EntriesOfAt(row.tid, row.outs, 0);
      }
    }
    forall k | 0 <= k < |es|
      ensures es[k] == Entry(row.tid, row.outs[k].index, row.outs[k].output)
      ensures es[k].index in u && u[es[k].index] == es[k].output
    {
      EntriesOfAt(row.tid, row.outs, k);
      GatherAt(row.outs, k);
    }
    forall t, i | IsUnspent(single, t, i) ensures Entry(t, i, single[t][i]) in es {
      GatherKeys(row.outs, i);
      var k :| 0 <= k < |row.outs| && row.outs[k].index == i;
      assert es[k] == Entry(t, i, single[t][i]);
    }
  }

  lemma {:induction false} ListsConcat<A>(a: seq<Entry<A>>, b: seq<Entry<A>>, l: Ledger<A>, tid: TxId)
    requires tid in l && ListsUnspent(a, map[tid := l[tid]]) && ListsUnspent(b, l - {tid})
    ensures ListsUnspent(a + b, l)
  {
    var es := a + b;
    var single: Ledger<A> := map[tid := l[tid]];
    forall t, i | IsUnspent(l, t, i) ensures Entry(t, i, l[t][i]) in es {
      if t == tid {
        assert IsUnspent(single, t, i);
      } else {
        assert IsUnspent(l - {tid}, t, i);
      }
    }
    forall j, k | 0 <= j < k < |es| ensures es[j].tid != es[k].tid || es[j].index != es[k].index {
      if j < |a| <= k {
        assert es[j] in a && es[k] in b;
      }
    }
  }

  lemma {:induction false} RowsEntries<A>(rows: seq<Row<A>>, l: Ledger<A>)
    requires Rows(rows, l)
    ensures ListsUnspent(Entries(rows), l)
    decreases |rows|
  {
    if rows != [] {
      RowEntries(rows[0], l);
      RowsEntries(rows[1..], l - {rows[0].tid});
      ListsConcat(EntriesOf(rows[0].tid, rows[0].outs), Entries(rows[1..]), l, rows[0].tid);
    }
  }
}
