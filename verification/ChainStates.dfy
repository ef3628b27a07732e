/**
 Chain states on disk (storage/src/chain_state.rs).

 The state at the end of an epoch is stored as the difference to the state at the end of a parent epoch. Reading it
 back replays the differences from the genesis state on.
 */
module ChainStates {
  import opened Wrappers
  import opened EpochTree
  import opened MapDiff

  type Hash = nat

  datatype TxOut = TxOut(address: seq<bv8>, value: nat)

  /** Unspent outputs, by output pointer in its order. */
  type Utxos = map<nat, TxOut>

  /** Slot numbers leave room for one more value in 16 bits. */
  type Slot = s: nat | s < 0xffff

  datatype BlockDate = Boundary(epoch: EpochId) | Normal(epoch: EpochId, slot: Slot)

  datatype Config = Config(protocolMagic: nat, feeConstant: nat, feeCoefficient: nat)

  datatype ChainState = ChainState(
    config: Config,
    lastBlock: Hash,
    lastDate: Option<BlockDate>,
    lastBoundaryBlock: Option<Hash>,
    slotLeaders: seq<nat>,
    utxos: Utxos,
    chainLength: nat,
    nrTransactions: nat,
    spentTxos: nat
  )

  datatype Block =
    | BoundaryBlock(previous: Hash, epoch: EpochId, slotLeaders: seq<nat>)
    | MainBlock(previous: Hash, body: seq<bv8>)

  /** The hash before the first block, and the state there. */
  datatype Genesis = Genesis(prev: Hash, initial: ChainState)

  datatype File = File(
    parent: Hash,
    lastBlock: Hash,
    epoch: EpochId,
    slotCode: nat,
    lastBoundaryBlock: Hash,
    chainLength: nat,
    nrTransactions: nat,
    spentTxos: nat,
    removed: seq<nat>,
    added: Utxos
  )

  datatype Error = NotFound | Panic | Invalid(code: nat)

  // ----- dates are stored as an epoch and a slot code

  function SlotCode(d: BlockDate): (n: nat) {
    match d
    case Boundary(_) => 0
    case Normal(_, slot) => slot + 1
  }

  function DateOf(epoch: EpochId, code: nat): (d: BlockDate)
    requires code <= 0xffff
  {
    if code == 0 then Boundary(epoch) else Normal(epoch, code - 1)
  }

  lemma {:induction false} DateRoundTrip(d: BlockDate)
    ensures SlotCode(d) <= 0xffff && DateOf(d.epoch, SlotCode(d)) == d
  {
  }

  // ----- applying a difference

  function RemoveAll(utxos: Utxos, removed: seq<nat>): (r: Option<Utxos>) {
    if removed == [] then Some(utxos)
    else if removed[0] !in utxos then None
    else RemoveAll(utxos - {removed[0]}, removed[1..])
  }

  /** The outputs after a difference; none when it removes a missing output or adds one that is there. */
  ghost function Patch(utxos: Utxos, removed: seq<nat>, added: Utxos): (r: Option<Utxos>) {
    match RemoveAll(utxos, removed)
    case None => None
    case Some(left) => if left.Keys !! added.Keys then Some(left + added) else None
  }

  lemma {:induction false} RemoveAllSorted(utxos: Utxos, removed: seq<nat>)
    requires Sorted(removed) && forall k :: k in removed ==> k in utxos
    ensures RemoveAll(utxos, removed) == Some(utxos - (set k | k in removed))
  {
    if removed == [] {
      assert utxos == utxos - (set k | k in removed);
    } else {
      var rest, first := removed[1..], removed[0];
      assert removed == [first] + rest;
      assert first !in rest;
      RemoveAllSorted(utxos - {first}, rest);
      assert utxos - {first} - (set k | k in rest) == utxos - (set k | k in removed);
    }
  }

  /** A stored difference never removes a missing output nor adds one that is there. */
  lemma {:induction false} DeltaApplies(from: Utxos, to: Utxos, removed: seq<nat>)
    requires Sorted(removed) && forall k :: k in removed <==> k in Removed(from, to)
    ensures Patch(from, removed, Added(from, to)) == Some((from - Removed(from, to)) + Added(from, to))
    ensures Patch(from, removed, Added(from, to)) == Some(to) <==> AgreeOnCommon(from, to)
  {
    RemoveAllSorted(from, removed);
    var left := from - Removed(from, to);
    assert from - (set k | k in removed) == left;
    assert RemoveAll(from, removed) == Some(left);
    assert left.Keys !! Added(from, to).Keys;
    assert Patch(from, removed, Added(from, to)) == Some(left + Added(from, to));
    PatchRoundTrip(from, to);
  }

  // ----- reading

  ghost predicate RankOk(files: map<Hash, File>, prev: Hash, h: Hash)
    requires h in files
  {
    files[h].parent == prev || files[h].parent !in files || files[files[h].parent].epoch < files[h].epoch
  }

  /** A difference only refers to an earlier epoch. */
  ghost predicate Ranked(files: map<Hash, File>, prev: Hash) {
    forall h {:trigger RankOk(files, prev, h)} :: h in files ==> RankOk(files, prev, h)
  }

  ghost predicate CodesOk(files: map<Hash, File>) {
    forall h :: h in files ==> files[h].slotCode <= 0xffff
  }

  function Updated(s: ChainState, file: File, utxos: Utxos): (r: ChainState)
    requires file.slotCode <= 0xffff
  {
    s.(utxos := utxos, lastBlock := file.lastBlock, lastDate := Some(DateOf(file.epoch, file.slotCode)),
       lastBoundaryBlock := Some(file.lastBoundaryBlock), chainLength := file.chainLength,
       nrTransactions := file.nrTransactions, spentTxos := file.spentTxos)
  }

  /** The state that the differences on disk add up to. */
  ghost function DoGet(files: map<Hash, File>, g: Genesis, h: Hash): (r: Result<ChainState, Error>)
    requires Ranked(files, g.prev) && CodesOk(files)
    decreases if h in files then files[h].epoch + 1 else 0
  {
    if h !in files then Err(NotFound)
    else
      assert RankOk(files, g.prev, h);
      var file := files[h];
      var base := if file.parent != g.prev then DoGet(files, g, file.parent) else Ok(g.initial);
      if base.Err? then base
      else
        match Patch(base.value.utxos, file.removed, file.added)
        case None => Err(Panic)
        case Some(utxos) => Ok(Updated(base.value, file, utxos))
  }

  /** The slot leaders are not stored: they come from the boundary block of the epoch. */
  function WithLeaders(blocks: map<Hash, Block>, s: ChainState): (r: Result<ChainState, Error>) {
    match s.lastBoundaryBlock
    case None => Ok(s)
    case Some(b) =>
      if b in blocks && blocks[b].BoundaryBlock? && s.lastDate.Some? && blocks[b].epoch == s.lastDate.value.epoch
      then Ok(s.(slotLeaders := blocks[b].slotLeaders))
      else Err(Panic)
  }

  ghost function Read(files: map<Hash, File>, blocks: map<Hash, Block>, g: Genesis,
                      h: Hash): (r: Result<ChainState, Error>)
    requires Ranked(files, g.prev) && CodesOk(files)
  {
    if h == g.prev then Ok(g.initial)
    else
      var s := DoGet(files, g, h);
      if s.Err? then s else WithLeaders(blocks, s.value)
  }

  /** How many files a read opens. */
  ghost function FilesRead(files: map<Hash, File>, g: Genesis, h: Hash): (n: nat)
    requires Ranked(files, g.prev)
    decreases if h in files then files[h].epoch + 1 else 0
  {
    if h !in files || h == g.prev then 0
    else
      assert RankOk(files, g.prev, h);
      if files[h].parent == g.prev then 1 else 1 + FilesRead(files, g, files[h].parent)
  }

  // ----- what writing keeps

  /** Every epoch has its own last block, and none of them is the hash before the first block. */
  ghost predicate EpochsOk(epochs: map<EpochId, Hash>, prev: Hash) {
    && (forall a, b :: a in epochs && b in epochs && epochs[a] == epochs[b] ==> a == b)
    && (forall a :: a in epochs ==> epochs[a] != prev)
  }

  /** A file belongs to the last block of its epoch and refers to the last block of the parent epoch, also on disk. */
  ghost predicate FileOk(files: map<Hash, File>, epochs: map<EpochId, Hash>, prev: Hash, h: Hash)
    requires h in files
  {
    var file := files[h];
    && file.epoch in epochs && epochs[file.epoch] == h && file.lastBlock == h && file.slotCode <= 0xffff
    && if file.epoch == 0 then file.parent == prev
       else ClearLowest(file.epoch) in epochs && file.parent == epochs[ClearLowest(file.epoch)] && file.parent in files
  }

  ghost predicate FilesOk(files: map<Hash, File>, epochs: map<EpochId, Hash>, prev: Hash) {
    && EpochsOk(epochs, prev)
    && forall h {:trigger FileOk(files, epochs, prev, h)} :: h in files ==> FileOk(files, epochs, prev, h)
  }

  lemma {:induction false} FilesOkRanked(files: map<Hash, File>, epochs: map<EpochId, Hash>, prev: Hash)
    requires FilesOk(files, epochs, prev)
    ensures Ranked(files, prev) && CodesOk(files)
  {
    forall h | h in files ensures RankOk(files, prev, h) && files[h].slotCode <= 0xffff {
      assert FileOk(files, epochs, prev, h);
      if files[h].epoch != 0 {
        assert FileOk(files, epochs, prev, files[h].parent);
      }
    }
  }

  /** A read of an epoch opens one file for each bit of its number, and one more. */
  lemma {:induction false} FilesReadIsPopCount(files: map<Hash, File>, epochs: map<EpochId, Hash>, g: Genesis, h: Hash)
    requires FilesOk(files, epochs, g.prev) && Ranked(files, g.prev) && h in files
    ensures FilesRead(files, g, h) == PopCount(files[h].epoch) + 1
    decreases files[h].epoch
  {
    assert FileOk(files, epochs, g.prev, h);
    if files[h].epoch != 0 {
      var parent := files[h].parent;
      assert FileOk(files, epochs, g.prev, parent);
      FilesReadIsPopCount(files, epochs, g, parent);
      ClearLowestPopCount(files[h].epoch);
    }
  }

  /** A file that is written does not change what is read from the files of earlier epochs. */
  lemma {:induction false} DoGetBelow(files: map<Hash, File>, epochs: map<EpochId, Hash>, g: Genesis, n: Hash,
                                      file: File, h: Hash)
    requires FilesOk(files, epochs, g.prev) && FilesOk(files[n := file], epochs, g.prev)
    requires Ranked(files, g.prev) && CodesOk(files) && Ranked(files[n := file], g.prev) && CodesOk(files[n := file])
    requires h in files && files[h].epoch < file.epoch
    ensures DoGet(files[n := file], g, h) == DoGet(files, g, h)
    decreases files[h].epoch
  {
    assert FileOk(files, epochs, g.prev, h) && FileOk(files[n := file], epochs, g.prev, n);
    if files[h].epoch != 0 {
      assert FileOk(files, epochs, g.prev, files[h].parent);
      DoGetBelow(files, epochs, g, n, file, files[h].parent);
    }
  }

  /** Nor from any file, when it is a new one or when it reads as the one that it replaces. */
  lemma {:induction false} DoGetFrame(files: map<Hash, File>, epochs: map<EpochId, Hash>, g: Genesis, n: Hash,
                                      file: File, h: Hash)
    requires FilesOk(files, epochs, g.prev) && FilesOk(files[n := file], epochs, g.prev)
    requires Ranked(files, g.prev) && CodesOk(files) && Ranked(files[n := file], g.prev) && CodesOk(files[n := file])
    requires h in files && (n in files ==> DoGet(files[n := file], g, n) == DoGet(files, g, n))
    ensures DoGet(files[n := file], g, h) == DoGet(files, g, h)
    decreases files[h].epoch
  {
    assert FileOk(files, epochs, g.prev, h);
    if h != n && files[h].epoch != 0 {
      assert FileOk(files, epochs, g.prev, files[h].parent);
      DoGetFrame(files, epochs, g, n, file, files[h].parent);
    }
  }

  /** The state read for a block is the state at that block. */
  lemma {:induction false} ReadLastBlock(files: map<Hash, File>, blocks: map<Hash, Block>, epochs: map<EpochId, Hash>,
                                         g: Genesis, h: Hash)
    requires FilesOk(files, epochs, g.prev) && Ranked(files, g.prev) && CodesOk(files) && g.initial.lastBlock == g.prev
    ensures Read(files, blocks, g, h).Ok? ==> Read(files, blocks, g, h).value.lastBlock == h
  {
    if h in files {
      assert FileOk(files, epochs, g.prev, h);
    }
  }

  /** The file that holds the difference from a base state to a state. */
  ghost predicate IsDelta(file: File, parent: Hash, base: ChainState, s: ChainState) {
    && s.lastDate.Some? && s.lastBoundaryBlock.Some?
    && file.parent == parent && file.lastBlock == s.lastBlock
    && file.epoch == s.lastDate.value.epoch && file.slotCode == SlotCode(s.lastDate.value)
    && file.lastBoundaryBlock == s.lastBoundaryBlock.value
    && file.chainLength == s.chainLength && file.nrTransactions == s.nrTransactions && file.spentTxos == s.spentTxos
    && Sorted(file.removed) && (forall k :: k in file.removed <==> k in Removed(base.utxos, s.utxos))
    && file.added == Added(base.utxos, s.utxos)
  }

  /** What a state on disk leaves out is recovered from the genesis data and from the boundary block. */
  ghost predicate Storable(blocks: map<Hash, Block>, g: Genesis, s: ChainState) {
    && s.lastDate.Some? && s.lastBoundaryBlock.Some? && s.config == g.initial.config
    && WithLeaders(blocks, s) == Ok(s)
  }

  lemma {:induction false} DoGetConfig(files: map<Hash, File>, g: Genesis, h: Hash)
    requires Ranked(files, g.prev) && CodesOk(files)
    ensures DoGet(files, g, h).Ok? ==> DoGet(files, g, h).value.config == g.initial.config
    decreases if h in files then files[h].epoch + 1 else 0
  {
    if h in files {
      assert RankOk(files, g.prev, h);
      if files[h].parent != g.prev {
        DoGetConfig(files, g, files[h].parent);
      }
    }
  }

  /** Reading a difference back gives the state exactly when the outputs it shares with its base are unchanged. */
  lemma {:induction false} DeltaReadsBack(files: map<Hash, File>, blocks: map<Hash, Block>, g: Genesis,
                                          base: ChainState, s: ChainState)
    requires Ranked(files, g.prev) && CodesOk(files)
    requires s.lastBlock in files && s.lastBlock != g.prev && Storable(blocks, g, s)
    requires IsDelta(files[s.lastBlock], files[s.lastBlock].parent, base, s)
    requires Read(files, blocks, g, files[s.lastBlock].parent) == Ok(base)
    ensures Read(files, blocks, g, s.lastBlock).Ok?
    ensures Read(files, blocks, g, s.lastBlock) == Ok(s) <==> AgreeOnCommon(base.utxos, s.utxos)
  {
    var file := files[s.lastBlock];
    DateRoundTrip(s.lastDate.value);
    DeltaApplies(base.utxos, s.utxos, file.removed);
    assert RankOk(files, g.prev, s.lastBlock);
    var raw := if file.parent != g.prev then DoGet(files, g, file.parent) else Ok(g.initial);
    if file.parent != g.prev {
      DoGetConfig(files, g, file.parent);
    }
    assert raw.Ok? && raw.value.utxos == base.utxos && raw.value.config == g.initial.config;
    var utxos := Patch(base.utxos, file.removed, file.added).value;
    assert DoGet(files, g, s.lastBlock) == Ok(Updated(raw.value, file, utxos));
    assert Updated(raw.value, file, utxos).(slotLeaders := s.slotLeaders) == s.(utxos := utxos);
  }

  // ----- a whole run of writes

  /** States at the end of the first epochs; an output pointer has the same output in all of them. */
  ghost predicate EpochStates(blocks: map<Hash, Block>, epochs: map<EpochId, Hash>, g: Genesis,
                              states: seq<ChainState>) {
    && |states| < 0x8000_0000_0000_0000
    && (forall i :: 0 <= i < |states| ==>
          && Storable(blocks, g, states[i]) && states[i].lastDate.value.epoch == i
          && i in epochs && epochs[i] == states[i].lastBlock
          && AgreeOnCommon(g.initial.utxos, states[i].utxos))
    && (forall i, j :: 0 <= i < j < |states| ==> AgreeOnCommon(states[i].utxos, states[j].utxos))
  }

  /** The first n states, and nothing else, are on disk and read back. */
  ghost predicate StoredUpTo(files: map<Hash, File>, blocks: map<Hash, Block>, epochs: map<EpochId, Hash>, g: Genesis,
                             states: seq<ChainState>, n: nat)
    requires Ranked(files, g.prev) && CodesOk(files)
  {
    && n <= |states|
    && (forall h :: h in files ==> exists i :: 0 <= i < n && h == states[i].lastBlock)
    && (forall i :: 0 <= i < n ==>
          states[i].lastBlock in files && Read(files, blocks, g, states[i].lastBlock) == Ok(states[i]))
  }

  /** The next state is new, and its parent state is on disk and agrees with it. */
  lemma {:induction false} NextEpoch(files: map<Hash, File>, blocks: map<Hash, Block>, epochs: map<EpochId, Hash>,
                                     g: Genesis,
                  states: seq<ChainState>, n: nat)
    requires FilesOk(files, epochs, g.prev) && Ranked(files, g.prev) && CodesOk(files)
    requires EpochStates(blocks, epochs, g, states) && n < |states| && StoredUpTo(files, blocks, epochs, g, states, n)
    ensures states[n].lastBlock !in files
    ensures n > 0 ==>
              && ClearLowest(n) in epochs
              && Read(files, blocks, g, epochs[ClearLowest(n)]) == Ok(states[ClearLowest(n)])
              && AgreeOnCommon(states[ClearLowest(n)].utxos, states[n].utxos)
  {
    if n > 0 {
      assert epochs[ClearLowest(n)] == states[ClearLowest(n)].lastBlock;
    }
  }

  lemma {:induction false} StoredNext(before: map<Hash, File>, files: map<Hash, File>, blocks: map<Hash, Block>,
                                      epochs: map<EpochId, Hash>,
                   g: Genesis, states: seq<ChainState>, n: nat)
    requires FilesOk(before, epochs, g.prev) && Ranked(before, g.prev) && CodesOk(before)
    requires FilesOk(files, epochs, g.prev) && Ranked(files, g.prev) && CodesOk(files)
    requires EpochStates(blocks, epochs, g, states) && n < |states| && StoredUpTo(before, blocks, epochs, g, states, n)
    requires var h := states[n].lastBlock;
             && h in files && files == before[h := files[h]]
             && var base := Read(before, blocks, g, files[h].parent);
                && base.Ok? && IsDelta(files[h], files[h].parent, base.value, states[n])
                && (Read(files, blocks, g, h) == Ok(states[n]) <==> AgreeOnCommon(base.value.utxos, states[n].utxos))
    requires forall h :: h in before ==> Read(files, blocks, g, h) == Read(before, blocks, g, h)
    ensures StoredUpTo(files, blocks, epochs, g, states, n + 1)
  {
    var h := states[n].lastBlock;
    assert FileOk(files, epochs, g.prev, h);
    NextEpoch(before, blocks, epochs, g, states, n);
    assert Read(files, blocks, g, h) == Ok(states[n]);
  }

  lemma {:induction false} StoredPopCount(files: map<Hash, File>, blocks: map<Hash, Block>,
                                          epochs: map<EpochId, Hash>, g: Genesis,
                       states: seq<ChainState>)
    requires FilesOk(files, epochs, g.prev) && Ranked(files, g.prev) && CodesOk(files)
    requires EpochStates(blocks, epochs, g, states) && StoredUpTo(files, blocks, epochs, g, states, |states|)
    ensures forall i :: 0 <= i < |states| ==> FilesRead(files, g, states[i].lastBlock) == PopCount(i) + 1
  {
    forall i | 0 <= i < |states| ensures FilesRead(files, g, states[i].lastBlock) == PopCount(i) + 1 {
      assert FileOk(files, epochs, g.prev, states[i].lastBlock);
      FilesReadIsPopCount(files, epochs, g, states[i].lastBlock);
    }
  }

  // ----- replaying blocks

  /** Verification of a block against a state: the next state or an error. */
  type Verify = (ChainState, Hash, Block) -> Result<ChainState, Error>

  ghost predicate SetsLastBlock(verify: Verify) {
    forall s, h, b :: verify(s, h, b).Ok? ==> verify(s, h, b).value.lastBlock == h
  }

  /** The blocks from the first one on, each with its predecessor's hash. */
  ghost predicate IsChain(blocks: map<Hash, Block>, prev: Hash, chain: seq<Hash>) {
    forall i :: 0 <= i < |chain| ==>
      chain[i] in blocks && chain[i] != prev && blocks[chain[i]].previous == Tip(prev, chain[..i])
  }

  ghost function Tip(prev: Hash, chain: seq<Hash>): (h: Hash) {
    if chain == [] then prev else chain[|chain| - 1]
  }

  /** Verify all blocks of a chain, from the genesis state on. */
  ghost function Replay(verify: Verify, blocks: map<Hash, Block>, g: Genesis,
                        chain: seq<Hash>): (r: Result<ChainState, Error>)
    requires IsChain(blocks, g.prev, chain)
  {
    if chain == [] then Ok(g.initial)
    else
      var last := |chain| - 1;
      ChainPrefix(blocks, g.prev, chain, last);
      var before := Replay(verify, blocks, g, chain[..last]);
      if before.Err? then before else verify(before.value, chain[last], blocks[chain[last]])
  }

  lemma {:induction false} ChainPrefix(blocks: map<Hash, Block>, prev: Hash, chain: seq<Hash>, n: nat)
    requires IsChain(blocks, prev, chain) && n <= |chain|
    ensures IsChain(blocks, prev, chain[..n])
  {
    forall i | 0 <= i < n ensures chain[..n][..i] == chain[..i] {
    }
  }

  /** The blocks of the chain from position n on, latest first. */
  ghost predicate LatestFirst(chain: seq<Hash>, n: nat, latest: seq<Hash>) {
    && n <= |chain| && |latest| == |chain| - n
    && forall i :: 0 <= i < |latest| ==> latest[i] == chain[|chain| - 1 - i]
  }

  /** No block of the chain from position n on has a state on disk. */
  ghost predicate NoneStored(files: map<Hash, File>, blocks: map<Hash, Block>, g: Genesis, chain: seq<Hash>, n: nat)
    requires Ranked(files, g.prev) && CodesOk(files)
  {
    forall i :: n <= i < |chain| ==> Read(files, blocks, g, chain[i]) == Err(NotFound)
  }

  /** One block further back. */
  lemma {:induction false} SeekStep(files: map<Hash, File>, blocks: map<Hash, Block>, g: Genesis, chain: seq<Hash>,
                                    n: nat, latest: seq<Hash>)
    requires Ranked(files, g.prev) && CodesOk(files) && IsChain(blocks, g.prev, chain) && 0 < n
    requires LatestFirst(chain, n, latest) && NoneStored(files, blocks, g, chain, n)
    requires Read(files, blocks, g, chain[n - 1]) == Err(NotFound)
    ensures LatestFirst(chain, n - 1, latest + [chain[n - 1]]) && NoneStored(files, blocks, g, chain, n - 1)
    ensures blocks[chain[n - 1]].previous == Tip(g.prev, chain[..n - 1])
  {
  }

  lemma {:induction false} ReplayStep(verify: Verify, blocks: map<Hash, Block>, g: Genesis, chain: seq<Hash>, n: nat)
    requires IsChain(blocks, g.prev, chain) && 0 < n <= |chain|
    requires IsChain(blocks, g.prev, chain[..n]) && IsChain(blocks, g.prev, chain[..n - 1])
    requires Replay(verify, blocks, g, chain[..n - 1]).Ok?
    ensures Replay(verify, blocks, g, chain[..n]) ==
              verify(Replay(verify, blocks, g, chain[..n - 1]).value, chain[n - 1], blocks[chain[n - 1]])
  {
    assert chain[..n][..n - 1] == chain[..n - 1];
  }

  /** Verifying the first n blocks comes to this. */
  ghost predicate Replayed(verify: Verify, blocks: map<Hash, Block>, g: Genesis, chain: seq<Hash>, n: int,
                           r: Result<ChainState, Error>) {
    0 <= n <= |chain| && IsChain(blocks, g.prev, chain[..n]) && Replay(verify, blocks, g, chain[..n]) == r
  }

  lemma {:induction false} ReplayedNext(verify: Verify, blocks: map<Hash, Block>, g: Genesis, chain: seq<Hash>,
                                        n: nat, s: ChainState)
    requires IsChain(blocks, g.prev, chain) && n < |chain| && Replayed(verify, blocks, g, chain, n, Ok(s))
    ensures Replayed(verify, blocks, g, chain, n + 1, verify(s, chain[n], blocks[chain[n]]))
  {
    ChainPrefix(blocks, g.prev, chain, n + 1);
    ReplayStep(verify, blocks, g, chain, n + 1);
  }

  lemma {:induction false} ReplayTip(verify: Verify, blocks: map<Hash, Block>, g: Genesis, chain: seq<Hash>)
    requires IsChain(blocks, g.prev, chain) && SetsLastBlock(verify) && g.initial.lastBlock == g.prev
    ensures Replay(verify, blocks, g, chain).Ok? ==>
              Replay(verify, blocks, g, chain).value.lastBlock == Tip(g.prev, chain)
  {
  }

  lemma {:induction false} ReplayError(verify: Verify, blocks: map<Hash, Block>, g: Genesis, chain: seq<Hash>, n: nat)
    requires IsChain(blocks, g.prev, chain) && n <= |chain| && IsChain(blocks, g.prev, chain[..n])
    requires Replay(verify, blocks, g, chain[..n]).Err?
    ensures Replay(verify, blocks, g, chain) == Replay(verify, blocks, g, chain[..n])
    decreases |chain|
  {
    if n == |chain| {
      assert chain[..n] == chain;
    } else {
      var last := |chain| - 1;
      ChainPrefix(blocks, g.prev, chain, last);
      assert chain[..last][..n] == chain[..n];
      ReplayError(verify, blocks, g, chain[..last], n);
    }
  }

  /** A state that is on disk for a block of the chain is the outcome of verifying the chain up to it. */
  ghost predicate ReplaysOnDisk(files: map<Hash, File>, blocks: map<Hash, Block>, g: Genesis, verify: Verify,
                                chain: seq<Hash>)
    requires Ranked(files, g.prev) && CodesOk(files) && IsChain(blocks, g.prev, chain)
  {
    forall i :: 0 <= i < |chain| && Read(files, blocks, g, chain[i]) != Err(NotFound) ==>
      && Read(files, blocks, g, chain[i]).Ok?
      && IsChain(blocks, g.prev, chain[..i + 1])
      && Replay(verify, blocks, g, chain[..i + 1]) == Read(files, blocks, g, chain[i])
  }

  lemma {:induction false} OnDiskIsReplay(files: map<Hash, File>, blocks: map<Hash, Block>, g: Genesis,
                                          verify: Verify, chain: seq<Hash>, n: nat)
    requires Ranked(files, g.prev) && CodesOk(files) && IsChain(blocks, g.prev, chain) && n <= |chain|
    requires ReplaysOnDisk(files, blocks, g, verify, chain)
    ensures IsChain(blocks, g.prev, chain[..n])
    ensures var r := Read(files, blocks, g, Tip(g.prev, chain[..n]));
            r == Err(NotFound) || (r.Ok? && r == Replay(verify, blocks, g, chain[..n]))
  {
    ChainPrefix(blocks, g.prev, chain, n);
    if n > 0 {
      assert Tip(g.prev, chain[..n]) == chain[n - 1];
    }
  }

  // ----- the storage

  method RemoveOutputs(utxos: Utxos, removed: seq<nat>) returns (r: Option<Utxos>)
    ensures r == RemoveAll(utxos, removed)
  {
    var cur: Utxos := utxos;
    for i := 0 to |removed|
      invariant RemoveAll(utxos, removed) == RemoveAll(cur, removed[i..])
    {
      assert removed[i..][1..] == removed[i + 1..];
      if removed[i] !in cur {
        return None;
      }
      cur := cur - {removed[i]};
    }
    r := Some(cur);
  }

  method AddOutputs(utxos: Utxos, added: Utxos) returns (r: Option<Utxos>)
    ensures r == if utxos.Keys !! added.Keys then Some(utxos + added) else None
  {
    var cur: Utxos, todo := utxos, added.Keys;
    while todo != {}
      invariant todo <= added.Keys && utxos.Keys !! added.Keys - todo
      invariant cur == utxos + (added - todo)
    {
      var k :| k in todo;
      if k in cur {
        return None;
      }
      cur, todo := cur[k := added[k]], todo - {k};
    }
    assert added - todo == added;
    r := Some(cur);
  }

  /** Apply a difference to the outputs of a state: first the removals, then the additions. */
  method ApplyDelta(utxos: Utxos, file: File) returns (r: Option<Utxos>)
    ensures r == Patch(utxos, file.removed, file.added)
  {
    r := RemoveOutputs(utxos, file.removed);
    if r.Some? {
      r := AddOutputs(r.value, file.added);
    }
  }

  class Storage {
    var files: map<Hash, File>
    const blocks: map<Hash, Block>
    const epochs: map<EpochId, Hash>
    const genesis: Genesis

    ghost predicate Valid()
      reads this
    {
      && FilesOk(files, epochs, genesis.prev) && Ranked(files, genesis.prev) && CodesOk(files)
      && genesis.initial.lastBlock == genesis.prev
    }

    constructor (blocks: map<Hash, Block>, epochs: map<EpochId, Hash>, genesis: Genesis)
      requires EpochsOk(epochs, genesis.prev) && genesis.initial.lastBlock == genesis.prev
      ensures this.blocks == blocks && this.epochs == epochs && this.genesis == genesis
      ensures Valid() && files == map[]
    {
      files := map[];
      this.blocks, this.epochs, this.genesis := blocks, epochs, genesis;
    }

    method DoGetChainState(h: Hash) returns (r: Result<ChainState, Error>)
      requires Ranked(files, genesis.prev) && CodesOk(files)
      ensures r == DoGet(files, genesis, h)
      decreases if h in files then files[h].epoch + 1 else 0
    {
      if h !in files {
        return Err(NotFound);
      }
      assert RankOk(files, genesis.prev, h);
      var file := files[h];
      var chainState := genesis.initial;
      if file.parent != genesis.prev {
        var base := DoGetChainState(file.parent);
        if base.Err? {
          return base;
        }
        chainState := base.value;
      }
      var utxos := ApplyDelta(chainState.utxos, file);
      if utxos.None? {
        return Err(Panic);
      }
      r := Ok(Updated(chainState, file, utxos.value));
    }

    /** What the files add up to, with the configuration of the genesis state and the date and block of its file. */
    method ReadChainState(h: Hash) returns (r: Result<ChainState, Error>)
      requires Ranked(files, genesis.prev) && CodesOk(files)
      ensures r == Read(files, blocks, genesis, h)
      ensures r.Ok? ==> r.value.config == genesis.initial.config
      ensures h !in files && h != genesis.prev ==> r == Err(NotFound)
      ensures r.Ok? && h != genesis.prev ==>
                && r.value.lastBlock == files[h].lastBlock
                && r.value.lastDate == Some(DateOf(files[h].epoch, files[h].slotCode))
                && r.value.lastBoundaryBlock == Some(files[h].lastBoundaryBlock)
    {
      if h == genesis.prev {
        return Ok(genesis.initial);
      }
      r := DoGetChainState(h);
      DoGetConfig(files, genesis, h);
      if r.Ok? {
        r := WithLeaders(blocks, r.value);
      }
    }

    /** The last block of the epoch that the state of this epoch is stored against, or what stands before the first. */
    method ParentHash(epoch: EpochId) returns (r: Result<Hash, Error>)
      ensures r.Ok? && epoch == 0 ==> r.value == genesis.prev
      ensures r.Ok? && epoch > 0 ==> ClearLowest(epoch) in epochs && r.value == epochs[ClearLowest(epoch)]
      ensures r.Err? <==>
                epoch == 0x8000_0000_0000_0000 || (epoch > 0 && ClearLowest(epoch) !in epochs)
    {
      var parentEpoch := ParentForEpoch(epoch);
      if parentEpoch.Err? {
        return Err(Panic);
      }
      match parentEpoch.value
      case None => r := Ok(genesis.prev);
      case Some(e) => r := if e in epochs then Ok(epochs[e]) else Err(NotFound);
    }

    /**
     Store the state at the end of an epoch. It can be read back exactly when no output that it shares with the
     parent state has changed. What was stored before stays as it was, unless the file replaces one that reads
     differently.
     */
    method WriteChainState(s: ChainState) returns (r: Result<(), Error>)
      requires Valid() && Storable(blocks, genesis, s)
      requires s.lastDate.value.epoch in epochs && epochs[s.lastDate.value.epoch] == s.lastBlock
      modifies this
      ensures Valid()
      ensures r.Err? ==> files == old(files)
      ensures r.Ok? ==>
                && s.lastBlock in files && files == old(files)[s.lastBlock := files[s.lastBlock]]
                && var base := Read(old(files), blocks, genesis, files[s.lastBlock].parent);
                   && base.Ok? && IsDelta(files[s.lastBlock], files[s.lastBlock].parent, base.value, s)
                   && (Read(files, blocks, genesis, s.lastBlock) == Ok(s) <==>
                         AgreeOnCommon(base.value.utxos, s.utxos))
      ensures (s.lastBlock in old(files) ==>
                 DoGet(files, genesis, s.lastBlock) == DoGet(old(files), genesis, s.lastBlock)) ==>
                forall h :: h in old(files) || h == genesis.prev ==>
                  Read(files, blocks, genesis, h) == Read(old(files), blocks, genesis, h)
      ensures r.Ok? <==>
                && s.lastDate.value.epoch != 0x8000_0000_0000_0000
                && (s.lastDate.value.epoch > 0 ==>
                      && ClearLowest(s.lastDate.value.epoch) in epochs
                      && Read(old(files), blocks, genesis, epochs[ClearLowest(s.lastDate.value.epoch)]).Ok?)
    {
      var date := s.lastDate.value;
      var parent := ParentHash(date.epoch);
      if parent.Err? {
        return Err(parent.error);
      }
      var base := ReadChainState(parent.value);
      if base.Err? {
        return Err(base.error);
      }
      assert base.value.lastBlock == parent.value by { ReadLastBlock(files, blocks, epochs, genesis, parent.value); }
      var removed, added := DiffMaps(base.value.utxos, s.utxos);
      var removedKeys := SortedKeys(map k | k in removed :: ());
      var file := File(parent.value, s.lastBlock, date.epoch, SlotCode(date), s.lastBoundaryBlock.value,
                       s.chainLength, s.nrTransactions, s.spentTxos, removedKeys, added);
      NewFileOk(files, blocks, epochs, genesis, s, file, base.value);
      files := files[s.lastBlock := file];
      return Ok(());
    }

    /**
     Store the states at the end of the epochs 0, 1, 2, ... in this order. Afterwards every one of them reads back
     exactly, from as many files as its number has bits and one more, provided an output pointer never changes its
     output.
     */
    method WriteEpochs(states: seq<ChainState>)
      requires Valid() && files == map[] && EpochStates(blocks, epochs, genesis, states)
      modifies this
      ensures Valid()
      ensures forall i :: 0 <= i < |states| ==>
                && Read(files, blocks, genesis, states[i].lastBlock) == Ok(states[i])
                && FilesRead(files, genesis, states[i].lastBlock) == PopCount(i) + 1
    {
      for n := 0 to |states|
        invariant Valid() && StoredUpTo(files, blocks, epochs, genesis, states, n)
      {
        NextEpoch(files, blocks, epochs, genesis, states, n);
        ghost var before := files;
        var r := WriteChainState(states[n]);
        StoredNext(before, files, blocks, epochs, genesis, states, n);
      }
      StoredPopCount(files, blocks, epochs, genesis, states);
    }

    /**
     Seek back from a block to the nearest one with a state on disk, then verify the blocks after it again.
     Whatever states are on disk, the outcome is that of verifying all blocks from the genesis state on, as long as
     every state on disk is itself such an outcome.
     */
    method RestoreChainState(verify: Verify, h: Hash, ghost chain: seq<Hash>) returns (r: Result<ChainState, Error>)
      requires Ranked(files, genesis.prev) && CodesOk(files) && genesis.initial.lastBlock == genesis.prev
      requires IsChain(blocks, genesis.prev, chain) && h == Tip(genesis.prev, chain) && SetsLastBlock(verify)
      requires ReplaysOnDisk(files, blocks, genesis, verify, chain)
      ensures r == Replay(verify, blocks, genesis, chain)
    {
      var state, blocksToApply, n := SeekBack(verify, h, chain);
      r := ApplyForward(verify, state, blocksToApply, chain, n);
      assert r.Ok? ==> r.value.lastBlock == h by { ReplayTip(verify, blocks, genesis, chain); }
    }

    /** The nearest state on disk at or before a block, and the blocks after it, latest first. */
    method SeekBack(verify: Verify, h: Hash, ghost chain: seq<Hash>)
        returns (state: ChainState, blocksToApply: seq<Hash>, ghost n: nat)
      requires Ranked(files, genesis.prev) && CodesOk(files) && genesis.initial.lastBlock == genesis.prev
      requires IsChain(blocks, genesis.prev, chain) && h == Tip(genesis.prev, chain) && SetsLastBlock(verify)
      requires ReplaysOnDisk(files, blocks, genesis, verify, chain)
      ensures LatestFirst(chain, n, blocksToApply)
      ensures IsChain(blocks, genesis.prev, chain[..n]) && Replay(verify, blocks, genesis, chain[..n]) == Ok(state)
      ensures Read(files, blocks, genesis, Tip(genesis.prev, chain[..n])) == Ok(state)
      ensures NoneStored(files, blocks, genesis, chain, n)
    {
      var cur := h;
      blocksToApply, n := [], |chain|;
      assert chain[..n] == chain;
      OnDiskIsReplay(files, blocks, genesis, verify, chain, n);
      var read := ReadChainState(cur);
      while read == Err(NotFound)
        invariant LatestFirst(chain, n, blocksToApply) && cur == Tip(genesis.prev, chain[..n])
        invariant read == Read(files, blocks, genesis, cur)
        invariant NoneStored(files, blocks, genesis, chain, n)
        decreases n
      {
        assert n > 0 && cur == chain[n - 1];
        SeekStep(files, blocks, genesis, chain, n, blocksToApply);
        blocksToApply := blocksToApply + [cur];
        cur := blocks[cur].previous;
        n := n - 1;
        read := ReadChainState(cur);
      }
      OnDiskIsReplay(files, blocks, genesis, verify, chain, n);
      state := read.value;
      assert state.lastBlock == cur by { ReplayTip(verify, blocks, genesis, chain[..n]); }
    }

    method ApplyForward(verify: Verify, start: ChainState, blocksToApply: seq<Hash>, ghost chain: seq<Hash>,
                        ghost n: nat)
        returns (r: Result<ChainState, Error>)
      requires IsChain(blocks, genesis.prev, chain) && LatestFirst(chain, n, blocksToApply)
      requires IsChain(blocks, genesis.prev, chain[..n]) && Replay(verify, blocks, genesis, chain[..n]) == Ok(start)
      ensures r == Replay(verify, blocks, genesis, chain)
    {
      r := Ok(start);
      for i := |blocksToApply| downto 0
        invariant r.Ok? && Replayed(verify, blocks, genesis, chain, |chain| - i, r)
      {
        var hash := blocksToApply[i];
        ReplayedNext(verify, blocks, genesis, chain, |chain| - i - 1, r.value);
        r := verify(r.value, hash, blocks[hash]);
        if r.Err? {
          ReplayError(verify, blocks, genesis, chain, |chain| - i);
          return;
        }
      }
      assert chain[..|chain|] == chain;
    }
  }

  /** Adding the file of a difference keeps the files in order, and what was readable stays so. */
  lemma {:induction false} NewFileOk(files: map<Hash, File>, blocks: map<Hash, Block>, epochs: map<EpochId, Hash>,
                                     g: Genesis,
                  s: ChainState, file: File, base: ChainState)
    requires FilesOk(files, epochs, g.prev) && Ranked(files, g.prev) && CodesOk(files)
    requires Storable(blocks, g, s)
    requires s.lastDate.value.epoch in epochs && epochs[s.lastDate.value.epoch] == s.lastBlock
    requires file.epoch == 0 ==> file.parent == g.prev
    requires file.epoch > 0 ==> ClearLowest(file.epoch) in epochs && file.parent == epochs[ClearLowest(file.epoch)]
    requires Read(files, blocks, g, file.parent) == Ok(base) && IsDelta(file, file.parent, base, s)
    ensures var files' := files[s.lastBlock := file];
            && FilesOk(files', epochs, g.prev) && Ranked(files', g.prev) && CodesOk(files')
            && (Read(files', blocks, g, s.lastBlock) == Ok(s) <==> AgreeOnCommon(base.utxos, s.utxos))
            && ((s.lastBlock in files ==> DoGet(files', g, s.lastBlock) == DoGet(files, g, s.lastBlock)) ==>
                  forall h :: h in files || h == g.prev ==> Read(files', blocks, g, h) == Read(files, blocks, g, h))
  {
    var files' := files[s.lastBlock := file];
    DateRoundTrip(s.lastDate.value);
    forall h | h in files' ensures FileOk(files', epochs, g.prev, h) {
      if h != s.lastBlock {
        assert FileOk(files, epochs, g.prev, h);
      }
    }
    FilesOkRanked(files', epochs, g.prev);
    if s.lastBlock in files ==> DoGet(files', g, s.lastBlock) == DoGet(files, g, s.lastBlock) {
      forall h | h in files ensures DoGet(files', g, h) == DoGet(files, g, h) {
        DoGetFrame(files, epochs, g, s.lastBlock, file, h);
      }
    }
    assert FileOk(files', epochs, g.prev, s.lastBlock);
    if file.epoch > 0 {
      assert FileOk(files, epochs, g.prev, file.parent);
      DoGetBelow(files, epochs, g, s.lastBlock, file, file.parent);
    }
    DeltaReadsBack(files', blocks, g, base, s);
  }
}
