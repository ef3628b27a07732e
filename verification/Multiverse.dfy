/**
 The multiverse (chain-impl-mockchain/src/multiverse.rs): ledger states of many timelines, indexed by block and by
 chain length, pinned by reference-counted roots and thinned by a collector.
 */
module Multiverse {
  import opened Powers
  import opened GcPlan
  import opened Sequences
  import opened Sets

  type BlockId = nat

  type ChainLength = c: nat | c < 0x1_0000_0000

  datatype Ledger<T> = Ledger(chainLength: ChainLength, content: T)

  type ByHash<T> = map<BlockId, Ledger<T>>
  type ByLength = map<nat, set<BlockId>>

  // ----- the two indices

  ghost predicate Listed<T>(byHash: ByHash<T>, byLength: ByLength, k: BlockId)
    requires k in byHash
  {
    byHash[k].chainLength in byLength && k in byLength[byHash[k].chainLength]
  }

  ghost predicate BucketOk<T>(byHash: ByHash<T>, byLength: ByLength, c: nat)
    requires c in byLength
  {
    byLength[c] != {} && forall k :: k in byLength[c] ==> k in byHash && byHash[k].chainLength == c
  }

  /** The index by chain length lists exactly the stored states, each under its own length, in no empty bucket. */
  ghost predicate Agree<T>(byHash: ByHash<T>, byLength: ByLength) {
    && (forall k {:trigger Listed(byHash, byLength, k)} :: k in byHash ==> Listed(byHash, byLength, k))
    && (forall c {:trigger BucketOk(byHash, byLength, c)} :: c in byLength ==> BucketOk(byHash, byLength, c))
  }

  /** The two indices determine each other. */
  lemma {:induction false} AgreeDetermines<T>(byHash: ByHash<T>, a: ByLength, b: ByLength)
    requires Agree(byHash, a) && Agree(byHash, b)
    ensures a == b
  {
    AgreeIncludes(byHash, a, b);
    AgreeIncludes(byHash, b, a);
    assert forall c :: c in a ==> a[c] == b[c];
  }

  lemma {:induction false} AgreeIncludes<T>(byHash: ByHash<T>, a: ByLength, b: ByLength)
    requires Agree(byHash, a) && Agree(byHash, b)
    ensures forall c :: c in a ==> c in b && a[c] <= b[c]
  {
    forall c | c in a ensures c in b && a[c] <= b[c] {
      assert BucketOk(byHash, a, c);
      var k :| k in a[c];
      assert Listed(byHash, b, k);
      forall j | j in a[c] ensures j in b[c] {
        assert Listed(byHash, b, j);
      }
    }
  }

  function Bucket(byLength: ByLength, c: nat): (s: set<BlockId>) {
    if c in byLength then byLength[c] else {}
  }

  function InsertLength(byLength: ByLength, c: nat, k: BlockId): (r: ByLength) {
    byLength[c := Bucket(byLength, c) + {k}]
  }

  function InsertState<T>(byHash: ByHash<T>, k: BlockId, st: Ledger<T>): (r: ByHash<T>) {
    if k in byHash then byHash else byHash[k := st]
  }

  /** An insertion keeps the indices in agreement exactly when the length given is that of the state it leaves. */
  lemma {:induction false} InsertKeepsAgreement<T>(byHash: ByHash<T>, byLength: ByLength, c: nat, k: BlockId,
                                                   st: Ledger<T>)
    requires Agree(byHash, byLength)
    ensures Agree(InsertState(byHash, k, st), InsertLength(byLength, c, k)) <==>
              c == (if k in byHash then byHash[k] else st).chainLength
  {
    var h, l := InsertState(byHash, k, st), InsertLength(byLength, c, k);
    if c != h[k].chainLength {
      assert k in l[c] && !BucketOk(h, l, c);
    } else {
      forall j | j in h ensures Listed(h, l, j) {
        if j in byHash {
          assert Listed(byHash, byLength, j);
        }
      }
      forall d | d in l ensures BucketOk(h, l, d) {
        if d in byLength {
          assert BucketOk(byHash, byLength, d);
        }
      }
    }
  }

  /** A new block under length 7 with a state of length 3: listed where deletion will not look. */
  lemma {:induction false} MismatchedInsert<T>(k: BlockId, content: T)
    ensures var h, l := InsertState(map[], k, Ledger(3, content)), InsertLength(map[], 7, k);
            !Agree(h, l) && k in h && h[k].chainLength !in l
  {
    var none: ByHash<T>, nowhere: ByLength := map[], map[];
    InsertKeepsAgreement(none, nowhere, 7, k, Ledger(3, content));
  }

  function RemoveLength(byLength: ByLength, c: nat, k: BlockId): (r: ByLength) {
    var bucket := Bucket(byLength, c) - {k};
    if bucket == {} then byLength - {c} else byLength[c := bucket]
  }

  lemma {:induction false} RemoveKeepsAgreement<T>(byHash: ByHash<T>, byLength: ByLength, k: BlockId)
    requires Agree(byHash, byLength) && k in byHash
    ensures Agree(byHash - {k}, RemoveLength(byLength, byHash[k].chainLength, k))
  {
    var h, l := byHash - {k}, RemoveLength(byLength, byHash[k].chainLength, k);
    forall j | j in h ensures Listed(h, l, j) {
      assert Listed(byHash, byLength, j);
    }
    forall c | c in l ensures BucketOk(h, l, c) {
      assert BucketOk(byHash, byLength, c);
    }
  }

  // ----- the roots

  ghost function Pins(live: set<GCRoot>, k: BlockId): (s: set<GCRoot>) {
    set r | r in live && r.hash == k
  }

  class Roots {
    var counts: map<BlockId, nat>
    ghost var live: set<GCRoot>

    /** The count of a block is the number of live roots for it; a block without roots has no entry. */
    ghost predicate Valid()
      reads this
    {
      && (forall k :: k in counts ==> counts[k] == |Pins(live, k)| > 0)
      && (forall r :: r in live ==> r.hash in counts && r.roots == this)
    }

    constructor ()
      ensures Valid() && counts == map[] && live == {}
    {
      counts, live := map[], {};
    }
  }

  /** A pin on the state of a block. */
  class GCRoot {
    const hash: BlockId
    const roots: Roots

    constructor (hash: BlockId, roots: Roots)
      requires roots.Valid()
      modifies roots
      ensures this.hash == hash && this.roots == roots
      ensures roots.Valid() && roots.live == old(roots.live) + {this} && this !in old(roots.live)
    {
      this.hash, this.roots := hash, roots;
      new;
      PinsAdd(roots.live, this);
      roots.counts := roots.counts[hash := (if hash in roots.counts then roots.counts[hash] else 0) + 1];
      roots.live := roots.live + {this};
    }

    /** Dropping a live root releases its pin; the entry it looks for is always there. */
    method Drop()
      requires roots.Valid() && this in roots.live
      modifies roots
      ensures roots.Valid() && roots.live == old(roots.live) - {this}
    {
      PinsRemove(roots.live, this);
      if hash in roots.counts {
        if roots.counts[hash] > 1 {
          roots.counts := roots.counts[hash := roots.counts[hash] - 1];
        } else {
          roots.counts := roots.counts - {hash};
        }
        roots.live := roots.live - {this};
      } else {
        assert false;
      }
    }
  }

  lemma {:induction false} PinsAdd(live: set<GCRoot>, r: GCRoot)
    requires r !in live
    ensures |Pins(live + {r}, r.hash)| == |Pins(live, r.hash)| + 1
    ensures forall k :: k != r.hash ==> Pins(live + {r}, k) == Pins(live, k)
  {
    assert Pins(live + {r}, r.hash) == Pins(live, r.hash) + {r};
  }

  lemma {:induction false} PinsRemove(live: set<GCRoot>, r: GCRoot)
    requires r in live
    ensures |Pins(live - {r}, r.hash)| == |Pins(live, r.hash)| - 1
    ensures forall k :: k != r.hash ==> Pins(live - {r}, k) == Pins(live, k)
  {
    assert Pins(live, r.hash) == Pins(live - {r}, r.hash) + {r};
  }

  // ----- what a collection removes

  ghost predicate IsLongest(byLength: ByLength, longest: nat) {
    longest in byLength && forall c :: c in byLength ==> c <= longest
  }

  /** The states a collection removes: those at thinned lengths that no root pins. */
  ghost function Garbage<T>(byHash: ByHash<T>, byLength: ByLength, pinned: set<BlockId>, longest: nat,
                            suffix: nat): (s: set<BlockId>) {
    set k | k in byHash && Thinned(byLength.Keys, longest, suffix, byHash[k].chainLength) && k !in pinned
  }

  /** After a collection, the longest chain is unchanged and a second collection removes nothing. */
  lemma {:induction false} SecondGcRemovesNothing<T>(byHash: ByHash<T>, byLength: ByLength, after: ByLength,
                                                     pinned: set<BlockId>, longest: nat, suffix: nat)
    requires Agree(byHash, byLength) && IsLongest(byLength, longest)
    requires Agree(byHash - Garbage(byHash, byLength, pinned, longest, suffix), after)
    ensures IsLongest(after, longest)
    ensures Garbage(byHash - Garbage(byHash, byLength, pinned, longest, suffix), after, pinned, longest, suffix) == {}
  {
    var left := byHash - Garbage(byHash, byLength, pinned, longest, suffix);
    LengthsAfterGc(byHash, byLength, after, pinned, longest, suffix);
    forall k | k in left && k !in pinned ensures !Thinned(after.Keys, longest, suffix, left[k].chainLength) {
      ToKeepAfter(byLength.Keys, after.Keys, longest, suffix, left[k].chainLength);
      assert Listed(byHash, byLength, k);
    }
  }

  /** A collection empties only thinned lengths. */
  lemma {:induction false} LengthsAfterGc<T>(byHash: ByHash<T>, byLength: ByLength, after: ByLength,
                                             pinned: set<BlockId>, longest: nat, suffix: nat)
    requires Agree(byHash, byLength) && IsLongest(byLength, longest)
    requires Agree(byHash - Garbage(byHash, byLength, pinned, longest, suffix), after)
    ensures after.Keys <= byLength.Keys && longest in after
    ensures forall c :: c in byLength.Keys - after.Keys ==> Thinned(byLength.Keys, longest, suffix, c)
  {
    var left := byHash - Garbage(byHash, byLength, pinned, longest, suffix);
    forall c | c in after ensures c in byLength {
      assert BucketOk(left, after, c);
      var k :| k in after[c];
      assert Listed(byHash, byLength, k);
    }
    forall c | c in byLength && c !in after ensures Thinned(byLength.Keys, longest, suffix, c) {
      assert BucketOk(byHash, byLength, c);
      var k :| k in byLength[c];
      assert k in left ==> Listed(left, after, k);
    }
  }

  /** The suffix that counts is the same for a second collection. */
  lemma {:induction false} SuffixAfterGc<T>(byHash: ByHash<T>, byLength: ByLength, after: ByLength,
                                            pinned: set<BlockId>, longest: nat, suffix: nat)
    requires Agree(byHash, byLength) && IsLongest(byLength, longest) && suffix == ScanSuffix(byLength.Keys, longest)
    requires Agree(byHash - Garbage(byHash, byLength, pinned, longest, suffix), after)
    ensures ScanSuffix(after.Keys, longest) == suffix
  {
    LengthsAfterGc(byHash, byLength, after, pinned, longest, suffix);
    if !ScanOverflows(byLength.Keys, longest) {
      var c :| c in byLength.Keys && c + SUFFIX_TO_KEEP >= longest && c + SUFFIX_TO_KEEP < U32;
      if c !in after.Keys {
        assert c in byLength.Keys - after.Keys;
      }
    }
  }

  /** A removed state lies closer to a length that is kept whole than to the longest chain. */
  lemma {:induction false} GarbageIsNearKept<T>(byHash: ByHash<T>, byLength: ByLength, pinned: set<BlockId>,
                                                longest: nat, suffix: nat, k: BlockId)
      returns (d: nat)
    requires Agree(byHash, byLength) && k in Garbage(byHash, byLength, pinned, longest, suffix)
    ensures d in byLength && d < byHash[k].chainLength && byHash[k].chainLength - d < longest - byHash[k].chainLength
    ensures byLength[d] * Garbage(byHash, byLength, pinned, longest, suffix) == {}
  {
    d := ThinnedIsNearKept(byLength.Keys, longest, suffix, byHash[k].chainLength);
    BucketContents(byHash, byLength, d);
  }

  /** The chain lengths outside the suffix that still hold a state without a pin. */
  ghost function UnpinnedLengths(byLength: ByLength, pinned: set<BlockId>, longest: nat): (s: set<nat>) {
    set c | c in byLength && c + SUFFIX_TO_KEEP < longest && !(byLength[c] <= pinned)
  }

  /** After a collection they number four less than the bits of the longest chain, at most. */
  lemma {:induction false} UnpinnedIsLogarithmic<T>(byHash: ByHash<T>, byLength: ByLength, after: ByLength,
                                                    pinned: set<BlockId>, longest: nat)
    requires Agree(byHash, byLength) && IsLongest(byLength, longest)
    requires Agree(byHash - Garbage(byHash, byLength, pinned, longest, SUFFIX_TO_KEEP), after)
    ensures var s := UnpinnedLengths(after, pinned, longest);
            s == {} || (longest > 0 && |s| + 4 <= Log2(longest))
  {
    var left := byHash - Garbage(byHash, byLength, pinned, longest, SUFFIX_TO_KEEP);
    var s, kept := UnpinnedLengths(after, pinned, longest), KeptBelow(byLength.Keys, longest, SUFFIX_TO_KEEP, longest);
    LengthsAfterGc(byHash, byLength, after, pinned, longest, SUFFIX_TO_KEEP);
    forall c | c in s ensures c in kept {
      BucketContents(left, after, c);
      var k :| k in after[c] && k !in pinned;
      assert k !in Garbage(byHash, byLength, pinned, longest, SUFFIX_TO_KEEP);
    }
    SubsetCardinality(s, kept);
    KeptIsLogarithmic(byLength.Keys, longest);
  }

  lemma {:induction false} SubsetCardinality<A>(a: set<A>, b: set<A>)
    requires a <= b
    ensures |a| <= |b|
  {
    if a != {} {
      var x :| x in a;
      SubsetCardinality(a - {x}, b - {x});
    }
  }

  /**
   On a single timeline whose roots are all near its end, what is left after a collection is the suffix and
   logarithmically many older states.
   */
  lemma {:induction false} SingleTimelineSize<T>(byHash: ByHash<T>, byLength: ByLength, after: ByLength,
                                                 pinned: set<BlockId>, longest: nat)
    requires Agree(byHash, byLength) && IsLongest(byLength, longest) && longest > 0
    requires Agree(byHash - Garbage(byHash, byLength, pinned, longest, SUFFIX_TO_KEEP), after)
    requires forall j, k :: j in byHash && k in byHash && byHash[j].chainLength == byHash[k].chainLength ==> j == k
    requires forall k :: k in pinned && k in byHash ==> byHash[k].chainLength + SUFFIX_TO_KEEP >= longest
    ensures |byHash - Garbage(byHash, byLength, pinned, longest, SUFFIX_TO_KEEP)| <= SUFFIX_TO_KEEP + Log2(longest)
  {
    var left := byHash - Garbage(byHash, byLength, pinned, longest, SUFFIX_TO_KEEP);
    var old', suffix := UnpinnedLengths(after, pinned, longest), Suffix(longest);
    LengthsAfterGc(byHash, byLength, after, pinned, longest, SUFFIX_TO_KEEP);
    forall c | c in after.Keys ensures c in old' + suffix {
      BucketContents(left, after, c);
      assert BucketOk(left, after, c);
    }
    SubsetCardinality(after.Keys, old' + suffix);
    OneStatePerLength(left, after);
    UnpinnedIsLogarithmic(byHash, byLength, after, pinned, longest);
    assert |old' + suffix| <= |old'| + |suffix|;
    SuffixSize(longest);
  }

  ghost function Interval(a: nat, b: nat): (s: set<nat>)
    requires a <= b
    ensures |s| == b - a
    ensures forall c: nat :: c in s <==> a <= c < b
    decreases b - a
  {
    if a == b then {} else Interval(a, b - 1) + {b - 1}
  }

  ghost function Suffix(longest: nat): (s: set<nat>) {
    Interval(if longest < SUFFIX_TO_KEEP then 0 else longest - SUFFIX_TO_KEEP, longest + 1)
  }

  lemma {:induction false} SuffixSize(longest: nat)
    requires longest > 0
    ensures |Suffix(longest)| <= SUFFIX_TO_KEEP + 1
    ensures longest <= SUFFIX_TO_KEEP ==> |Suffix(longest)| <= SUFFIX_TO_KEEP + Log2(longest)
  {
  }

  lemma {:induction false} OneStatePerLength<T>(byHash: ByHash<T>, byLength: ByLength)
    requires Agree(byHash, byLength)
    requires forall j, k :: j in byHash && k in byHash && byHash[j].chainLength == byHash[k].chainLength ==> j == k
    ensures |byHash| <= |byLength.Keys|
    decreases |byHash|
  {
    if k :| k in byHash {
      var c := byHash[k].chainLength;
      assert Listed(byHash, byLength, k);
      RemoveKeepsAgreement(byHash, byLength, k);
      BucketContents(byHash, byLength, c);
      assert byLength[c] == {k};
      OneStatePerLength(byHash - {k}, RemoveLength(byLength, c, k));
      assert |byHash - {k}| == |byHash| - 1;
      assert (byLength - {c}).Keys == byLength.Keys - {c};
    }
  }

  class Multiverse<T> {
    var statesByHash: ByHash<T>
    var statesByChainLength: ByLength
    const roots: Roots

    /** The indices agree, the counts are exact, and the state of every live root is present. */
    ghost predicate Valid()
      reads this, roots
    {
      && Agree(statesByHash, statesByChainLength)
      && roots.Valid()
      && forall r :: r in roots.live ==> r.hash in statesByHash
    }

    constructor ()
      ensures Valid() && fresh(roots) && statesByHash == map[] && roots.live == {}
    {
      statesByHash, statesByChainLength := map[], map[];
      roots := new Roots();
    }

    method MakeRoot(k: BlockId) returns (root: GCRoot)
      requires roots.Valid() && k in statesByHash
      modifies roots
      ensures roots.Valid() && (old(Valid()) ==> Valid())
      ensures fresh(root) && root.hash == k && root.roots == roots
      ensures roots.live == old(roots.live) + {root}
    {
      root := new GCRoot(k, roots);
    }

    /** A live root always finds its state. */
    method GetFromRoot(root: GCRoot) returns (st: Ledger<T>)
      requires Valid() && root in roots.live
      ensures root.hash in statesByHash && st == statesByHash[root.hash]
    {
      st := statesByHash[root.hash];
    }

    /**
     List a block under a chain length, keep its state unless it already has one, and pin it. The multiverse stays
     valid exactly when the length is that of the state that is kept.
     */
    method Insert(c: ChainLength, k: BlockId, st: Ledger<T>) returns (root: GCRoot)
      requires Valid()
      modifies this, roots
      ensures Valid() <==> c == (if k in old(statesByHash) then old(statesByHash[k]) else st).chainLength
      ensures fresh(root) && root.hash == k && root.roots == roots
      ensures roots.Valid() && roots.live == old(roots.live) + {root}
      ensures statesByHash == InsertState(old(statesByHash), k, st)
      ensures statesByChainLength == InsertLength(old(statesByChainLength), c, k)
    {
      InsertKeepsAgreement(statesByHash, statesByChainLength, c, k, st);
      statesByChainLength := InsertLength(statesByChainLength, c, k);
      statesByHash := InsertState(statesByHash, k, st);
      root := MakeRoot(k);
    }

    /** Insert a state under its own chain length. */
    method Add(k: BlockId, st: Ledger<T>) returns (root: GCRoot)
      requires Valid()
      modifies this, roots
      ensures Valid() <==> (k in old(statesByHash) ==> old(statesByHash[k]).chainLength == st.chainLength)
      ensures fresh(root) && root.hash == k && root.roots == roots
      ensures roots.Valid() && roots.live == old(roots.live) + {root}
      ensures statesByHash == InsertState(old(statesByHash), k, st)
      ensures statesByChainLength == InsertLength(old(statesByChainLength), st.chainLength, k)
    {
      root := Insert(st.chainLength, k, st);
    }

    /** Remove one state from both indices; the entries it looks for are always there. */
    method Delete(k: BlockId)
      requires Agree(statesByHash, statesByChainLength) && k in statesByHash
      modifies this
      ensures Agree(statesByHash, statesByChainLength)
      ensures statesByHash == old(statesByHash) - {k}
    {
      RemoveKeepsAgreement(statesByHash, statesByChainLength, k);
      assert Listed(statesByHash, statesByChainLength, k);
      var c := statesByHash[k].chainLength;
      statesByHash := statesByHash - {k};
      if c in statesByChainLength {
        assert k in statesByChainLength[c];
        statesByChainLength := RemoveLength(statesByChainLength, c, k);
      } else {
        assert false;
      }
    }

    /**
     Thin out the old states. Exactly the garbage goes: pinned states, kept lengths and the suffix stay. Where the
     32-bit addition of the scan overflows, a build with overflow checks panics before anything is removed, and a
     build that wraps around has no suffix.
     */
    method Gc(wraps: bool) returns (panic: bool)
      requires Valid() && statesByChainLength != map[]
      modifies this
      ensures Valid()
      ensures exists longest :: IsLongest(old(statesByChainLength), longest) &&
                var lengths := old(statesByChainLength).Keys;
                panic == (!wraps && ScanOverflows(lengths, longest)) &&
                statesByHash == old(statesByHash) - (if panic then {} else
                  Garbage(old(statesByHash), old(statesByChainLength), roots.counts.Keys, longest,
                          ScanSuffix(lengths, longest)))
    {
      ghost var byHash, byLength := statesByHash, statesByChainLength;
      var overflow, garbage, longest := FindGarbage(wraps);
      if overflow {
        assert statesByHash == byHash - {};
        return true;
      }
      for i := 0 to |garbage|
        invariant Agree(statesByHash, statesByChainLength)
        invariant statesByHash == byHash - (set k | k in garbage[..i])
      {
        assert garbage[i] in garbage && garbage[i] !in garbage[..i];
        Delete(garbage[i]);
        assert garbage[..i + 1] == garbage[..i] + [garbage[i]];
      }
      assert garbage[..|garbage|] == garbage;
      ghost var g := Garbage(byHash, byLength, roots.counts.Keys, longest, ScanSuffix(byLength.Keys, longest));
      assert (set k | k in garbage) == g;
      assert IsLongest(byLength, longest) && statesByHash == byHash - g;
      return false;
    }

    /** Scan the chain lengths in increasing order for states to delete. */
    method FindGarbage(wraps: bool) returns (overflow: bool, garbage: seq<BlockId>, longest: nat)
      requires Valid() && statesByChainLength != map[]
      ensures IsLongest(statesByChainLength, longest)
      ensures overflow <==> !wraps && ScanOverflows(statesByChainLength.Keys, longest)
      ensures Distinct(garbage)
      ensures !overflow ==> forall k :: k in garbage <==>
                k in Garbage(statesByHash, statesByChainLength, roots.counts.Keys, longest,
                             ScanSuffix(statesByChainLength.Keys, longest))
    {
      var lengths: set<nat> := statesByChainLength.Keys;
      LengthsFit(statesByHash, statesByChainLength);
      longest := Maximum(lengths);
      garbage := [];
      var toKeep, todo := 0, lengths;
      ghost var at: nat, suffix := 0, ScanSuffix(lengths, longest);
      ghost var g := Garbage(statesByHash, statesByChainLength, roots.counts.Keys, longest, suffix);
      while todo != {}
        invariant forall c: nat :: c in todo <==> c in lengths && c >= at
        invariant Scanned(lengths, longest, at, wraps)
        invariant todo != {} ==> longest in todo && toKeep == ToKeep(lengths, longest, suffix, at)
        invariant !wraps ==> todo != {}
        invariant Distinct(garbage)
        invariant Gathered(statesByHash, g, garbage, at)
        decreases |todo|
      {
        var c := Minimum(todo);
        ToKeepGap(lengths, longest, suffix, at, c);
        if !wraps && c + SUFFIX_TO_KEEP >= U32 {
          return true, [], longest;
        }
        if (c + SUFFIX_TO_KEEP) % U32 >= longest {
          StopsInSuffix(lengths, longest, c);
          assert forall k :: k in g ==> statesByHash[k].chainLength < at by {
            assert forall k :: k in g ==> statesByHash[k].chainLength in lengths;
          }
          return false, garbage, longest;
        }
        ScannedNext(lengths, longest, at, c, wraps);
        if c >= toKeep {
          toKeep := c + (longest - c) / 2;
          GatherNone(statesByHash, statesByChainLength, roots.counts.Keys, longest, suffix, garbage, at, c);
        } else {
          var unpinned := Unpinned(statesByChainLength[c], roots.counts.Keys);
          GatherBucket(statesByHash, statesByChainLength, roots.counts.Keys, longest, suffix, garbage, at, c, unpinned);
          garbage := garbage + unpinned;
        }
        todo := todo - {c};
        at := c + 1;
      }
      overflow := false;
    }
  }

  /** The garbage gathered so far: that of the lengths below `at`. */
  ghost predicate Gathered<T>(byHash: ByHash<T>, g: set<BlockId>, garbage: seq<BlockId>, at: nat) {
    forall k :: k in garbage <==> k in g && k in byHash && byHash[k].chainLength < at
  }

  lemma {:induction false} GatherNone<T>(byHash: ByHash<T>, byLength: ByLength, pinned: set<BlockId>, longest: nat,
                                         suffix: nat, garbage: seq<BlockId>, at: nat, c: nat)
    requires Agree(byHash, byLength) && at <= c && !Thinned(byLength.Keys, longest, suffix, c)
    requires forall d :: at <= d < c ==> d !in byLength
    requires Gathered(byHash, Garbage(byHash, byLength, pinned, longest, suffix), garbage, at)
    ensures Gathered(byHash, Garbage(byHash, byLength, pinned, longest, suffix), garbage, c + 1)
  {
    forall k | k in byHash ensures byHash[k].chainLength in byLength {
      assert Listed(byHash, byLength, k);
    }
  }

  lemma {:induction false} GatherBucket<T>(byHash: ByHash<T>, byLength: ByLength, pinned: set<BlockId>, longest: nat,
                                           suffix: nat, garbage: seq<BlockId>, at: nat, c: nat, unpinned: seq<BlockId>)
    requires Agree(byHash, byLength) && at <= c && Thinned(byLength.Keys, longest, suffix, c)
    requires forall d :: at <= d < c ==> d !in byLength
    requires Gathered(byHash, Garbage(byHash, byLength, pinned, longest, suffix), garbage, at)
    requires Distinct(garbage) && Distinct(unpinned)
    requires forall k :: k in unpinned <==> k in byLength[c] && k !in pinned
    ensures Distinct(garbage + unpinned)
    ensures Gathered(byHash, Garbage(byHash, byLength, pinned, longest, suffix), garbage + unpinned, c + 1)
  {
    BucketContents(byHash, byLength, c);
    DistinctConcat(garbage, unpinned);
    forall k | k in byHash ensures byHash[k].chainLength in byLength {
      assert Listed(byHash, byLength, k);
    }
  }

  lemma {:induction false} LengthsFit<T>(byHash: ByHash<T>, byLength: ByLength)
    requires Agree(byHash, byLength)
    ensures forall c :: c in byLength ==> c < U32
  {
    forall c | c in byLength ensures c < U32 {
      assert BucketOk(byHash, byLength, c);
      var k :| k in byLength[c];
    }
  }

  /** The scan has passed the lengths below `at` without stopping. */
  ghost predicate Scanned(lengths: set<nat>, longest: nat, at: nat, wraps: bool) {
    forall c :: c in lengths && c < at ==>
      c + SUFFIX_TO_KEEP < longest || (wraps && c + SUFFIX_TO_KEEP >= U32)
  }

  lemma {:induction false} StopsInSuffix(lengths: set<nat>, longest: nat, c: nat)
    requires c in lengths && c <= longest < U32 && (c + SUFFIX_TO_KEEP) % U32 >= longest
    ensures c + SUFFIX_TO_KEEP < U32 && c + SUFFIX_TO_KEEP >= longest && !ScanOverflows(lengths, longest)
  {
  }

  /** A length that does not stop the scan is outside the suffix that counts, or the longest one. */
  lemma {:induction false} ScannedNext(lengths: set<nat>, longest: nat, at: nat, c: nat, wraps: bool)
    requires Scanned(lengths, longest, at, wraps) && c in lengths && at <= c <= longest < U32 && longest in lengths
    requires forall d :: at <= d < c ==> d !in lengths
    requires (c + SUFFIX_TO_KEEP) % U32 < longest && (!wraps ==> c + SUFFIX_TO_KEEP < U32)
    ensures Scanned(lengths, longest, c + 1, wraps)
    ensures c + ScanSuffix(lengths, longest) < longest || (wraps && c == longest)
  {
  }

  lemma {:induction false} BucketContents<T>(byHash: ByHash<T>, byLength: ByLength, c: nat)
    requires Agree(byHash, byLength) && c in byLength
    ensures forall k :: k in byLength[c] <==> k in byHash && byHash[k].chainLength == c
  {
    assert BucketOk(byHash, byLength, c);
    forall k | k in byHash && byHash[k].chainLength == c ensures k in byLength[c] {
      assert Listed(byHash, byLength, k);
    }
  }

  method Unpinned(hashes: set<BlockId>, pinned: set<BlockId>) returns (s: seq<BlockId>)
    ensures Distinct(s)
    ensures forall k :: k in s <==> k in hashes && k !in pinned
  {
    s := [];
    var todo := hashes;
    while todo != {}
      invariant todo <= hashes && Distinct(s)
      invariant forall k :: k in s <==> k in hashes && k !in todo && k !in pinned
    {
      var k :| k in todo;
      if k !in pinned {
        s := s + [k];
      }
      todo := todo - {k};
    }
  }
}

/** Reconstructing a state that is not in memory (chain-impl-mockchain/src/multiverse.rs). */
module FromStorage {
  import opened Wrappers
  import opened Multiverse

  const ZERO: BlockId := 0

  /** The parents of the stored blocks. */
  type Parents = map<BlockId, BlockId>

  ghost predicate RankOk(parents: Parents, rank: BlockId -> nat, k: BlockId)
    requires k in parents
  {
    rank(parents[k]) < rank(k)
  }

  /** Going from block to parent ends. */
  ghost predicate Ranked(parents: Parents, rank: BlockId -> nat) {
    forall k {:trigger RankOk(parents, rank, k)} :: k in parents ==> RankOk(parents, rank, k)
  }

  /** The nearest ancestor in memory, and the blocks after it up to k; none where the walk ends without one. */
  ghost function Missing<T>(byHash: ByHash<T>, parents: Parents, rank: BlockId -> nat, k: BlockId)
    : (r: Option<(BlockId, seq<BlockId>)>)
    requires Ranked(parents, rank)
    ensures r.Some? ==> r.value.0 in byHash && (r.value.1 == [] <==> k in byHash)
    ensures r.Some? && r.value.1 != [] ==> r.value.1[|r.value.1| - 1] == k
    decreases rank(k)
  {
    if k == ZERO then None
    else if k in byHash then Some((k, []))
    else if k !in parents then None
    else
      assert RankOk(parents, rank, k);
      match Missing(byHash, parents, rank, parents[k])
      case None => None
      case Some((base, blocks)) => Some((base, blocks + [k]))
  }

  /** Applying a block to a state, with none for a panic. */
  type Apply<!S> = (S, BlockId) -> Option<S>

  function Replay<S>(apply: Apply<S>, s: S, blocks: seq<BlockId>): (r: Option<S>) {
    if blocks == [] then Some(s)
    else
      match Replay(apply, s, blocks[..|blocks| - 1])
      case None => None
      case Some(t) => apply(t, blocks[|blocks| - 1])
  }

  function Repeated(k: BlockId, n: nat): (s: seq<BlockId>)
    ensures |s| == n && forall i :: 0 <= i < n ==> s[i] == k
  {
    if n == 0 then [] else Repeated(k, n - 1) + [k]
  }

  // ----- the walk and the replay of the source

  /** Walks back from k to a state in memory; the block recorded at every step is k itself. */
  method WalkBack<T>(byHash: ByHash<T>, parents: Parents, ghost rank: BlockId -> nat, k: BlockId)
    returns (r: Option<(BlockId, seq<BlockId>)>)
    requires Ranked(parents, rank)
    ensures r == match Missing(byHash, parents, rank, k)
                 case None => None
                 case Some((base, blocks)) => Some((base, Repeated(k, |blocks|)))
  {
    var toApply, cur := [], k;
    ghost var whole := Missing(byHash, parents, rank, k);
    while true
      invariant toApply == Repeated(k, |toApply|)
      invariant whole.None? <==> Missing(byHash, parents, rank, cur).None?
      invariant whole.Some? ==>
                  var rest := Missing(byHash, parents, rank, cur).value;
                  whole.value.0 == rest.0 && |whole.value.1| == |rest.1| + |toApply|
      decreases rank(cur)
    {
      if cur == ZERO {
        return None;
      }
      if cur in byHash {
        return Some((cur, toApply));
      }
      if cur !in parents {
        return None;
      }
      assert RankOk(parents, rank, cur);
      toApply := toApply + [k];
      cur := parents[cur];
    }
  }

  method ReplayBlocks<S>(apply: Apply<S>, s: S, blocks: seq<BlockId>) returns (r: Option<S>)
    ensures r == Replay(apply, s, blocks)
  {
    var state := s;
    for i := 0 to |blocks|
      invariant Replay(apply, s, blocks[..i]) == Some(state)
    {
      assert blocks[..i + 1][..i] == blocks[..i];
      var next := apply(state, blocks[i]);
      if next.None? {
        ReplayStops(apply, s, blocks, i + 1);
        return None;
      }
      state := next.value;
    }
    assert blocks[..|blocks|] == blocks;
    return Some(state);
  }

  lemma {:induction false} ReplayStops<S>(apply: Apply<S>, s: S, blocks: seq<BlockId>, n: nat)
    requires n <= |blocks| && Replay(apply, s, blocks[..n]) == None
    ensures Replay(apply, s, blocks) == None
    decreases |blocks|
  {
    if n == |blocks| {
      assert blocks[..n] == blocks;
    } else {
      assert blocks[..|blocks| - 1][..n] == blocks[..n];
      ReplayStops(apply, s, blocks[..|blocks| - 1], n);
    }
  }

  /** A root for block k: from memory, or with the state that the replay comes to. None stands for a panic. */
  method GetFromStorage<T>(m: Multiverse<T>, parents: Parents, ghost rank: BlockId -> nat, apply: Apply<Ledger<T>>,
                           k: BlockId)
    returns (root: Option<GCRoot>)
    requires m.Valid() && Ranked(parents, rank)
    modifies m, m.roots
    ensures m.Valid()
    ensures var found := Missing(old(m.statesByHash), parents, rank, k);
            if k in old(m.statesByHash) then root.Some? && m.statesByHash == old(m.statesByHash)
            else if found.None? then root.None? && m.statesByHash == old(m.statesByHash)
            else
              var st := Replay(apply, old(m.statesByHash)[found.value.0], Repeated(k, |found.value.1|));
              && (root.Some? <==> st.Some?)
              && m.statesByHash == if st.Some? then old(m.statesByHash)[k := st.value] else old(m.statesByHash)
    ensures root.Some? ==> root.value.hash == k && root.value in m.roots.live
  {
    if k in m.statesByHash {
      var r := m.MakeRoot(k);
      return Some(r);
    }
    var walk := WalkBack(m.statesByHash, parents, rank, k);
    if walk.None? {
      return None;
    }
    var st := ReplayBlocks(apply, m.statesByHash[walk.value.0], walk.value.1);
    if st.None? {
      return None;
    }
    var r := m.Add(k, st.value);
    return Some(r);
  }

  // ----- when that is the state of the block

  /** With one block to apply, it is the replay of the missing blocks, whatever applying a block does. */
  lemma {:induction false} RightForOneBlock<S, T>(byHash: ByHash<T>, parents: Parents, rank: BlockId -> nat,
                                                  k: BlockId, apply: Apply<S>, s: S)
    requires Ranked(parents, rank) && Missing(byHash, parents, rank, k).Some?
    ensures var blocks := Missing(byHash, parents, rank, k).value.1;
            |blocks| <= 1 ==> Replay(apply, s, Repeated(k, |blocks|)) == Replay(apply, s, blocks)
  {
    var blocks := Missing(byHash, parents, rank, k).value.1;
    if |blocks| <= 1 {
      assert Repeated(k, |blocks|) == blocks;
    }
  }

  /** The missing blocks are in order: every one ranks above those before it. */
  lemma {:induction false} MissingInOrder<T>(byHash: ByHash<T>, parents: Parents, rank: BlockId -> nat, k: BlockId)
    requires Ranked(parents, rank) && Missing(byHash, parents, rank, k).Some?
    ensures var blocks := Missing(byHash, parents, rank, k).value.1;
            forall i, j :: 0 <= i < j < |blocks| ==> rank(blocks[i]) < rank(blocks[j])
    decreases rank(k)
  {
    if k !in byHash {
      assert RankOk(parents, rank, k);
      MissingInOrder(byHash, parents, rank, parents[k]);
      var before := Missing(byHash, parents, rank, parents[k]).value.1;
      assert before != [] ==> before[|before| - 1] == parents[k];
    }
  }
}

/** The reconstruction with the blocks of the ledger. */
module LedgerReplay {
  import opened Wrappers
  import opened FromStorage
  import Multiverse
  import L = Ledger

  type BlockId = Multiverse.BlockId

  type Contents = map<BlockId, L.Block>

  /** Applying a stored block to a ledger; an unknown or a refused block is a panic. */
  function ApplyStored(env: L.Env, contents: Contents, l: L.Ledger, k: BlockId): (r: Option<L.Ledger>) {
    if k !in contents then None
    else
      match L.AfterBlock(env, l, contents[k])
      case Err(_) => None
      case Ok(l') => Some(l')
  }

  function Applying(env: L.Env, contents: Contents): (f: Apply<L.Ledger>) {
    (l: L.Ledger, k: BlockId) => ApplyStored(env, contents, l, k)
  }

  /** Applying k as often as blocks are missing is the replay, for every ledger and all contents of the blocks. */
  ghost predicate AlwaysRight(env: L.Env, k: BlockId, blocks: seq<BlockId>) {
    forall l: L.Ledger, contents: Contents ::
      Replay(Applying(env, contents), l, Repeated(k, |blocks|)) == Replay(Applying(env, contents), l, blocks)
  }

  /** Blocks without messages only make the chain longer. */
  lemma {:induction false} ReplayEmpty(env: L.Env, contents: Contents, l: L.Ledger, blocks: seq<BlockId>)
    requires forall i :: 0 <= i < |blocks| ==> blocks[i] in contents && contents[blocks[i]].contents == []
    ensures Replay(Applying(env, contents), l, blocks) == Some(l.(chainLength := l.chainLength + |blocks|))
  {
    if blocks != [] {
      ReplayEmpty(env, contents, l, blocks[..|blocks| - 1]);
    }
  }

  /** One update first, then blocks without messages. */
  lemma {:induction false} ReplayUpdate(env: L.Env, contents: Contents, l: L.Ledger, blocks: seq<BlockId>, p: nat)
    requires blocks != [] && blocks[0] in contents && contents[blocks[0]].contents == [L.Update(p)]
    requires forall i :: 1 <= i < |blocks| ==> blocks[i] in contents && contents[blocks[i]].contents == []
    ensures Replay(Applying(env, contents), l, blocks) ==
            Some(l.(chainLength := l.chainLength + |blocks|, settings := env.applyUpdate(l.settings, p)))
  {
    if |blocks| == 1 {
      assert blocks[..0] == [];
      UpdateBlock(env, l, contents[blocks[0]], p);
    } else {
      ReplayUpdate(env, contents, l, blocks[..|blocks| - 1], p);
    }
  }

  lemma {:induction false} UpdateBlock(env: L.Env, l: L.Ledger, b: L.Block, p: nat)
    requires b.contents == [L.Update(p)]
    ensures L.AfterBlock(env, l, b) ==
            L.AfterBlock(env, l.(settings := env.applyUpdate(l.settings, p)), b.(contents := []))
  {
    assert b.contents[1..] == [];
  }

  /** The first block is an update, all others are empty. */
  function UpdateFirst(blocks: seq<BlockId>, p: nat): (contents: Contents)
    requires blocks != []
  {
    map k | k in blocks :: L.Block(false, if k == blocks[0] then [L.Update(p)] else [])
  }

  /** Where two blocks or more are missing, an update in the first one is lost. */
  lemma {:induction false} UpdateIsLost(env: L.Env, l: L.Ledger, k: BlockId, blocks: seq<BlockId>, p: nat)
    requires |blocks| >= 2 && blocks[|blocks| - 1] == k && env.applyUpdate(l.settings, p) != l.settings
    requires forall i :: 1 <= i < |blocks| ==> blocks[i] != blocks[0]
    ensures var apply := Applying(env, UpdateFirst(blocks, p));
            Replay(apply, l, Repeated(k, |blocks|)) != Replay(apply, l, blocks)
  {
    var contents := UpdateFirst(blocks, p);
    assert k in blocks && contents[k].contents == [];
    ReplayEmpty(env, contents, l, Repeated(k, |blocks|));
    ReplayUpdate(env, contents, l, blocks, p);
  }

  /** Block 3 is in memory, its child is block 1, and the child of that is block 2. */
  lemma {:induction false} ExamplePath(byHash: Multiverse.ByHash<()>, parents: Parents, rank: BlockId -> nat)
    requires byHash.Keys == {3} && parents == map[2 := 1, 1 := 3]
    requires rank(3) == 0 && rank(1) == 1 && rank(2) == 2
    ensures Ranked(parents, rank) && Missing(byHash, parents, rank, 2) == Some((3, [1, 2]))
  {
    assert forall k :: k in parents ==> RankOk(parents, rank, k);
    var none: seq<BlockId> := [];
    assert Missing(byHash, parents, rank, 3) == Some((3, none));
    assert none + [1] == [1] && [1] + [2] == [1, 2];
    assert Missing(byHash, parents, rank, 1) == Some((3, [1]));
  }

  /** At any ledger: block 1 is an update that changes the settings, block 2 is empty and is asked for. */
  lemma {:induction false} LostUpdateExample(env: L.Env, l: L.Ledger, p: nat)
    requires env.applyUpdate(l.settings, p) != l.settings
    ensures var apply := Applying(env, map[1 := L.Block(false, [L.Update(p)]), 2 := L.Block(false, [])]);
            Replay(apply, l, Repeated(2, 2)) != Replay(apply, l, [1, 2])
  {
    assert UpdateFirst([1, 2], p) == map[1 := L.Block(false, [L.Update(p)]), 2 := L.Block(false, [])];
    UpdateIsLost(env, l, 2, [1, 2], p);
  }

  /**
   The reconstruction is right for every base state and all contents of the missing blocks exactly when at most one
   block is missing, given that some update changes some settings.
   */
  lemma {:induction false} RightIffOneBlock<T>(byHash: Multiverse.ByHash<T>, parents: Parents, rank: BlockId -> nat,
                                               k: BlockId, env: L.Env, l: L.Ledger, p: nat)
    requires Ranked(parents, rank) && Missing(byHash, parents, rank, k).Some?
    requires env.applyUpdate(l.settings, p) != l.settings
    ensures var blocks := Missing(byHash, parents, rank, k).value.1;
            AlwaysRight(env, k, blocks) <==> |blocks| <= 1
  {
    var blocks := Missing(byHash, parents, rank, k).value.1;
    if |blocks| <= 1 {
      assert Repeated(k, |blocks|) == blocks;
    } else {
      MissingInOrder(byHash, parents, rank, k);
      UpdateIsLost(env, l, k, blocks, p);
    }
  }
}
