/**
 The block store: blocks indexed by hash, each with a link to its parent and at most one
 link to an older ancestor.
 */
module BlockStore {
  import opened Wrappers
  import opened Powers
  import opened SkipLinks

  /** A block hash, read as a number. The zero hash stands for "no block". */
  type BlockId = nat
  const ZERO: BlockId := 0

  datatype Error = BlockNotFound | CannotIterate

  datatype Block = Block(id: BlockId, parentId: BlockId, body: seq<bv8>)

  datatype BackLink = BackLink(distance: nat, blockHash: BlockId)

  datatype BlockInfo = BlockInfo(blockHash: BlockId, depth: nat, backLinks: seq<BackLink>) {
    /** The target of the first link of distance one; the lookup fails when there is none. */
    function ParentId(): (id: BlockId)
      requires exists l :: l in backLinks && l.distance == 1
      ensures BackLink(1, id) in backLinks
    {
      FirstParent(backLinks)
    }
  }

  function FirstParent(links: seq<BackLink>): (id: BlockId)
    requires exists l :: l in links && l.distance == 1
    ensures BackLink(1, id) in links
  {
    if links[0].distance == 1 then links[0].blockHash else FirstParent(links[1..])
  }

  datatype StoredBlock = StoredBlock(block: Block, info: BlockInfo)

  type Blocks = map<BlockId, StoredBlock>

  // ----- the parent chain

  ghost predicate ParentOk(m: Blocks, id: BlockId)
    requires id in m
  {
    var info := m[id].info;
    && info.blockHash == id && info.depth >= 1
    && |info.backLinks| >= 1 && info.backLinks[0].distance == 1
    && var parent := info.backLinks[0].blockHash;
       if info.depth == 1 then parent == ZERO
       else parent in m && m[parent].info.depth == info.depth - 1
  }

  ghost predicate ParentsOk(m: Blocks) {
    && ZERO !in m
    && forall id {:trigger ParentOk(m, id)} :: id in m ==> ParentOk(m, id)
  }

  /** The block reached by n single parent steps; the zero hash once the chain is used up. */
  ghost function ParentWalk(m: Blocks, id: BlockId, n: nat): (r: BlockId)
    requires ParentsOk(m) && id in m && n <= m[id].info.depth
    ensures n < m[id].info.depth ==> r in m && m[r].info.depth == m[id].info.depth - n
    ensures n == m[id].info.depth ==> r == ZERO
    decreases n
  {
    assert ParentOk(m, id);
    if n == 0 then id
    else if m[id].info.depth == 1 then ZERO
    else ParentWalk(m, m[id].info.backLinks[0].blockHash, n - 1)
  }

  lemma {:induction false} WalkCompose(m: Blocks, id: BlockId, a: nat, b: nat)
    requires ParentsOk(m) && id in m && a < m[id].info.depth && a + b <= m[id].info.depth
    ensures ParentWalk(m, ParentWalk(m, id, a), b) == ParentWalk(m, id, a + b)
    decreases a
  {
    assert ParentOk(m, id);
    if a > 0 {
      WalkCompose(m, m[id].info.backLinks[0].blockHash, a - 1, b);
    }
  }

  // ----- the fast links

  ghost predicate HasFastLink(depth: nat) {
    ComputeFastLink(depth) > 0 && JumpDistance(depth % 32) != 1
  }

  /** A block has its parent link and, where the link function gives one, one link to the ancestor that far back. */
  ghost predicate LinksOk(m: Blocks, id: BlockId)
    requires ParentsOk(m) && id in m
  {
    var info := m[id].info;
    var distance := JumpDistance(info.depth % 32);
    if HasFastLink(info.depth) then
      |info.backLinks| == 2 && info.backLinks[1] == BackLink(distance, ParentWalk(m, id, distance))
    else |info.backLinks| == 1
  }

  ghost predicate ValidBlocks(m: Blocks) {
    ParentsOk(m) && forall id {:trigger LinksOk(m, id)} :: id in m ==> LinksOk(m, id)
  }

  /** Every back link points at the ancestor that is its distance away. */
  lemma {:induction false} BackLinksPointAtAncestors(m: Blocks, id: BlockId, i: nat)
    requires ValidBlocks(m) && id in m && i < |m[id].info.backLinks|
    ensures m[id].info.backLinks[i].distance <= m[id].info.depth
    ensures m[id].info.backLinks[i].blockHash == ParentWalk(m, id, m[id].info.backLinks[i].distance)
  {
    assert ParentOk(m, id) && LinksOk(m, id);
    assert ParentWalk(m, id, 1) == m[id].info.backLinks[0].blockHash;
  }

  ghost predicate Extends(m: Blocks, m': Blocks) {
    ParentsOk(m) && ParentsOk(m') && forall id :: id in m ==> id in m' && m'[id] == m[id]
  }

  lemma {:induction false} WalkInExtension(m: Blocks, m': Blocks, id: BlockId, n: nat)
    requires Extends(m, m') && id in m && n <= m[id].info.depth
    ensures ParentWalk(m', id, n) == ParentWalk(m, id, n)
    decreases n
  {
    assert ParentOk(m, id);
    if n > 0 && m[id].info.depth > 1 {
      WalkInExtension(m, m', m[id].info.backLinks[0].blockHash, n - 1);
    }
  }

  lemma {:induction false} NewBlockKeepsParents(m: Blocks, s: StoredBlock)
    requires ParentsOk(m) && s.info.blockHash !in m && s.info.blockHash != ZERO
    requires ParentOk(m[s.info.blockHash := s], s.info.blockHash)
    ensures Extends(m, m[s.info.blockHash := s])
  {
    var m' := m[s.info.blockHash := s];
    forall id | id in m' ensures ParentOk(m', id) {
      if id != s.info.blockHash {
        assert ParentOk(m, id);
      }
    }
  }

  lemma {:induction false} NewBlockKeepsLinks(m: Blocks, s: StoredBlock)
    requires ValidBlocks(m) && s.info.blockHash !in m && s.info.blockHash != ZERO
    requires Extends(m, m[s.info.blockHash := s])
    requires LinksOk(m[s.info.blockHash := s], s.info.blockHash)
    ensures ValidBlocks(m[s.info.blockHash := s])
  {
    var m' := m[s.info.blockHash := s];
    forall id | id in m' ensures LinksOk(m', id) {
      if id != s.info.blockHash {
        assert LinksOk(m, id);
        if HasFastLink(m[id].info.depth) {
          WalkInExtension(m, m', id, JumpDistance(m[id].info.depth % 32));
        }
      }
    }
  }

  /** What PutBlock works out for a new block with a stored parent, or with the zero hash for a parent. */
  ghost predicate NewInfo(m: Blocks, block: Block, info: BlockInfo)
    requires ValidBlocks(m)
  {
    && info.blockHash == block.id
    && |info.backLinks| >= 1 && info.backLinks[0] == BackLink(1, block.parentId)
    && if block.parentId == ZERO then info.depth == 1 && |info.backLinks| == 1
       else
         && block.parentId in m && info.depth == m[block.parentId].info.depth + 1
         && var jump := JumpDistance(info.depth % 32);
            if HasFastLink(info.depth) then
              info.backLinks[1..] == [BackLink(jump, ParentWalk(m, block.parentId, jump - 1))]
            else |info.backLinks| == 1
  }

  lemma {:induction false} NewInfoIsValid(m: Blocks, block: Block, info: BlockInfo)
    requires ValidBlocks(m) && block.id !in m && block.id != ZERO && NewInfo(m, block, info)
    ensures var m' := m[block.id := StoredBlock(block, info)];
            ValidBlocks(m') && StepsBack(m', block.id, block.parentId, 1)
  {
    var s := StoredBlock(block, info);
    var m' := m[block.id := s];
    if block.parentId != ZERO {
      assert ParentOk(m, block.parentId);
    }
    NewBlockKeepsParents(m, s);
    if HasFastLink(info.depth) {
      WalkInExtension(m, m', block.parentId, JumpDistance(info.depth % 32) - 1);
      assert info.backLinks[1] == info.backLinks[1..][0];
    }
    NewBlockKeepsLinks(m, s);
  }

  // ----- the greedy walk

  /** The longest link that does not overshoot; the last one among equally long ones. */
  function BestLink(links: seq<BackLink>, limit: nat): (r: Option<BackLink>)
    ensures r.Some? ==> r.value in links && r.value.distance <= limit
    ensures r.Some? ==> forall l :: l in links && l.distance <= limit ==> l.distance <= r.value.distance
    ensures r.None? ==> forall l :: l in links ==> l.distance > limit
  {
    if links == [] then None
    else
      var last := links[|links| - 1];
      var best := BestLink(links[..|links| - 1], limit);
      if last.distance <= limit && (best.None? || best.value.distance <= last.distance) then Some(last) else best
  }

  lemma {:induction false} BestLinkHop(m: Blocks, id: BlockId, info: BlockInfo, target: nat, hop: nat)
    requires ValidBlocks(m) && id in m && info == m[id].info && 0 < target < info.depth
    requires hop == HopDistance(info.depth % 32, info.depth - target)
    ensures hop <= info.depth - target
    ensures BestLink(info.backLinks, info.depth - target) == Some(BackLink(hop, ParentWalk(m, id, hop)))
  {
    assert ParentOk(m, id) && LinksOk(m, id);
    assert info.backLinks[0] == BackLink(1, ParentWalk(m, id, 1));
    assert info.backLinks[0] in info.backLinks;
    if HasFastLink(info.depth) {
      assert info.backLinks == [info.backLinks[0], info.backLinks[1]];
    } else {
      assert info.backLinks == [info.backLinks[0]];
    }
  }

  /** A stack of blocks on the parent chain of id, all deeper than the limit, with strictly decreasing depths. */
  ghost predicate OnWalk(m: Blocks, id: BlockId, limit: nat, path: seq<BlockInfo>)
    requires ParentsOk(m) && id in m
    decreases |path|
  {
    path == [] ||
    var top := path[|path| - 1];
    && limit < top.depth <= m[id].info.depth
    && top == m[ParentWalk(m, id, m[id].info.depth - top.depth)].info
    && OnWalk(m, id, top.depth, path[..|path| - 1])
  }

  lemma {:induction false} OnWalkElements(m: Blocks, id: BlockId, limit: nat, path: seq<BlockInfo>)
    requires ParentsOk(m) && id in m && OnWalk(m, id, limit, path)
    ensures forall i :: 0 <= i < |path| ==>
              limit < path[i].depth <= m[id].info.depth &&
              path[i] == m[ParentWalk(m, id, m[id].info.depth - path[i].depth)].info
    ensures forall i, j :: 0 <= i < j < |path| ==> path[i].depth > path[j].depth
    decreases |path|
  {
    if path != [] {
      OnWalkElements(m, id, path[|path| - 1].depth, path[..|path| - 1]);
    }
  }

  lemma {:induction false} OnWalkPush(m: Blocks, id: BlockId, path: seq<BlockInfo>, back: nat, depth: nat)
    requires ParentsOk(m) && id in m && back < m[id].info.depth && depth < m[id].info.depth - back
    requires OnWalk(m, id, m[id].info.depth - back, path)
    ensures OnWalk(m, id, depth, path + [m[ParentWalk(m, id, back)].info])
  {
    assert (path + [m[ParentWalk(m, id, back)].info])[..|path|] == path;
  }

  /** Where a walk of the given total cost stands: at `cur`, with the blocks in `path` behind it. */
  ghost predicate Walking(m: Blocks, id: BlockId, target: nat, cur: BlockInfo, path: seq<BlockInfo>, total: nat)
    requires ParentsOk(m) && id in m
  {
    && 0 < target <= cur.depth <= m[id].info.depth
    && cur == m[ParentWalk(m, id, m[id].info.depth - cur.depth)].info
    && OnWalk(m, id, cur.depth, path)
    && |path| + Hops(cur.depth % 32, cur.depth - target) == total
  }

  lemma {:induction false} WalkHop(m: Blocks, id: BlockId, target: nat, cur: BlockInfo, path: seq<BlockInfo>,
                                   total: nat)
    requires ValidBlocks(m) && id in m && target < cur.depth && Walking(m, id, target, cur, path, total)
    ensures var best := BestLink(cur.backLinks, cur.depth - target);
            && best.Some? && best.value.blockHash in m
            && m[best.value.blockHash].info.depth < cur.depth
            && Walking(m, id, target, m[best.value.blockHash].info, path + [cur], total)
  {
    var back := m[id].info.depth - cur.depth;
    var hop := HopDistance(cur.depth % 32, cur.depth - target);
    HopOnce(cur.depth, cur.depth - target);
    assert BestLink(cur.backLinks, cur.depth - target) == Some(BackLink(hop, ParentWalk(m, id, back + hop))) by {
      BestLinkHop(m, ParentWalk(m, id, back), cur, target, hop);
      WalkCompose(m, id, back, hop);
    }
    OnWalkPush(m, id, path, back, cur.depth - hop);
  }

  /** The number n of parent steps from d to a. */
  ghost predicate StepsBack(m: Blocks, d: BlockId, a: BlockId, n: nat)
    requires ParentsOk(m) && d in m
  {
    n <= m[d].info.depth && ParentWalk(m, d, n) == a
  }

  lemma {:induction false} StepsBackUnique(m: Blocks, d: BlockId, a: BlockId, n: nat, n': nat)
    requires ParentsOk(m) && d in m && StepsBack(m, d, a, n) && StepsBack(m, d, a, n')
    ensures n == n'
  {
  }

  class MemoryBlockStore {
    var blocks: Blocks
    var tags: map<string, BlockId>

    ghost predicate Valid()
      reads this
    {
      ValidBlocks(blocks) && forall t :: t in tags ==> tags[t] in blocks
    }

    constructor ()
      ensures Valid() && blocks == map[] && tags == map[]
    {
      blocks, tags := map[], map[];
    }

    function GetBlockInfo(id: BlockId): (r: Result<BlockInfo, Error>)
      reads this
    {
      if id in blocks then Ok(blocks[id].info) else Err(BlockNotFound)
    }

    /**
     Store a block whose parent is stored or the zero hash. Nothing happens when the block is already there. The
     store stays valid, unless the block itself is stored under the zero hash.
     */
    method PutBlock(block: Block) returns (r: Result<(), Error>)
      requires Valid()
      modifies this`blocks
      ensures Valid() <==> block.id != ZERO || blocks == old(blocks)
      ensures block.id in old(blocks) ==> r.Ok? && blocks == old(blocks)
      ensures block.id !in old(blocks) && block.parentId != ZERO && block.parentId !in old(blocks) ==>
                r == Err(BlockNotFound) && blocks == old(blocks)
      ensures block.id !in old(blocks) && (block.parentId == ZERO || block.parentId in old(blocks)) ==>
                && r.Ok? && block.id in blocks
                && blocks == old(blocks)[block.id := StoredBlock(block, blocks[block.id].info)]
                && (block.id != ZERO ==> StepsBack(blocks, block.id, block.parentId, 1))
    {
      if block.id in blocks {
        return Ok(());
      }
      var backLinks := [BackLink(1, block.parentId)];
      var depth := 1;
      if block.parentId != ZERO {
        var parentInfo := GetBlockInfo(block.parentId);
        if parentInfo.Err? {
          return Err(parentInfo.error);
        }
        depth := 1 + parentInfo.value.depth;
        var fastLink := ComputeFastLink(depth);
        var distance := depth - fastLink;
        if distance != 1 && fastLink > 0 {
          var farBlock, _ := GetPathToNthAncestor(block.parentId, depth - 1 - fastLink);
          assert ParentOk(blocks, ParentWalk(blocks, block.parentId, depth - 1 - fastLink));
          backLinks := backLinks + [BackLink(distance, farBlock.value.blockHash)];
        }
      }
      var info := BlockInfo(block.id, depth, backLinks);
      if block.id != ZERO {
        NewInfoIsValid(blocks, block, info);
      }
      PutBlockInternal(block, info);
      return Ok(());
    }

    method PutBlockInternal(block: Block, info: BlockInfo)
      modifies this`blocks
      ensures blocks == old(blocks)[block.id := StoredBlock(block, info)]
    {
      blocks := blocks[block.id := StoredBlock(block, info)];
    }

    /**
     The n-th ancestor, with the blocks passed on the way. The walk never meets a missing block,
     ends exactly at the n-th ancestor, and follows logarithmically many links.
     */
    method GetPathToNthAncestor(id: BlockId, distance: nat) returns (r: Result<BlockInfo, Error>, path: seq<BlockInfo>)
      requires Valid() && (id in blocks ==> distance < blocks[id].info.depth)
      ensures id !in blocks ==> r == Err(BlockNotFound) && path == []
      ensures id in blocks ==> r == Ok(blocks[ParentWalk(blocks, id, distance)].info)
      ensures id in blocks ==> OnWalk(blocks, id, blocks[id].info.depth - distance, path)
      ensures id in blocks ==> |path| == Hops(blocks[id].info.depth % 32, distance)
      ensures distance < LONGEST_JUMP ==> |path| <= 61 + 4 * Log2(distance + 1)
      ensures |path| <= 207 + 2 * (distance / 0x8000_0000)
    {
      path := [];
      var start := GetBlockInfo(id);
      if start.Err? {
        return start, path;
      }
      var cur := start.value;
      var target := cur.depth - distance;
      ghost var m, total := blocks, Hops(cur.depth % 32, distance);
      assert ParentOk(m, id);
      while target < cur.depth
        invariant Walking(m, id, target, cur, path, total)
        decreases cur.depth
      {
        WalkHop(m, id, target, cur, path, total);
        var bestLink := BestLink(cur.backLinks, cur.depth - target).value;
        path := path + [cur];
        cur := blocks[bestLink.blockHash].info;
      }
      if distance < LONGEST_JUMP {
        LogarithmicHops(start.value.depth % 32, distance);
      }
      HopsAtMost(start.value.depth % 32, distance);
      r := Ok(cur);
    }

    /** On stored blocks, or the zero hash, the answer is n exactly when the ancestor is n parent steps back. */
    method IsAncestor(ancestor: BlockId, descendent: BlockId) returns (r: Result<Option<nat>, Error>)
      requires Valid()
      ensures ancestor == descendent ==> r == Ok(Some(0))
      ensures ancestor != descendent ==>
                (r.Err? <==> descendent !in blocks || (ancestor != ZERO && ancestor !in blocks)) &&
                (r.Err? ==> r.error == BlockNotFound)
      ensures descendent in blocks && r.Ok? ==>
                forall n: nat :: r.value == Some(n) <==> StepsBack(blocks, descendent, ancestor, n)
    {
      if ancestor == descendent {
        if descendent in blocks {
          assert StepsBack(blocks, descendent, ancestor, 0);
        }
        return Ok(Some(0));
      }
      var desc := GetBlockInfo(descendent);
      if desc.Err? {
        return Err(desc.error);
      }
      assert ParentOk(blocks, descendent);
      if ancestor == ZERO {
        assert StepsBack(blocks, descendent, ancestor, desc.value.depth);
        return Ok(Some(desc.value.depth));
      }
      var anc := GetBlockInfo(ancestor);
      if anc.Err? {
        return Err(anc.error);
      }
      assert ParentOk(blocks, ancestor);
      if desc.value.depth <= anc.value.depth {
        return Ok(None);
      }
      var distance := desc.value.depth - anc.value.depth;
      var info, _ := GetPathToNthAncestor(desc.value.blockHash, distance);
      assert ParentOk(blocks, ParentWalk(blocks, descendent, distance));
      if info.value.blockHash == anc.value.blockHash {
        assert StepsBack(blocks, descendent, ancestor, distance);
        r := Ok(Some(distance));
      } else {
        r := Ok(None);
      }
    }

    method PutTag(name: string, id: BlockId)
      requires Valid() && id in blocks
      modifies this`tags
      ensures Valid() && tags == old(tags)[name := id]
    {
      tags := tags[name := id];
    }

    /** An iterator over the blocks after `from` up to and including `to`; an error unless `from` is an ancestor. */
    method IterateRange(from: BlockId, to: BlockId) returns (r: Result<BlockIterator, Error>)
      requires Valid()
      ensures r.Ok? ==>
                && fresh(r.value) && r.value.store == this && r.value.Valid()
                && r.value.to == to && StepsBack(blocks, to, from, r.value.toDepth - r.value.curDepth)
      ensures r.Ok? <==> to in blocks && exists n :: StepsBack(blocks, to, from, n)
      ensures to in blocks && (from == ZERO || from in blocks) && r.Err? ==> r.error == CannotIterate
    {
      var distance := IsAncestor(from, to);
      if distance.Err? {
        if to in blocks {
          assert forall n: nat :: StepsBack(blocks, to, from, n) ==> from in blocks || from == ZERO;
        }
        return Err(distance.error);
      }
      if distance.value.None? {
        return Err(CannotIterate);
      }
      var toInfo := GetBlockInfo(to);
      if toInfo.Err? {
        return Err(toInfo.error);
      }
      assert StepsBack(blocks, to, from, distance.value.value);
      assert ParentOk(blocks, to);
      var it := new BlockIterator(this, to, toInfo.value, distance.value.value);
      r := Ok(it);
    }
  }

  /**
   The pending stack of an iterator holds ancestors-or-self of `to`, with strictly decreasing depths towards
   the top, all of them still to be yielded. It only runs empty when everything has been yielded.
   */
  ghost predicate StackOk(m: Blocks, to: BlockId, depth: nat, pending: seq<BlockInfo>)
    requires ParentsOk(m) && to in m
  {
    depth < m[to].info.depth ==>
      && pending != [] && pending[0].depth == m[to].info.depth
      && OnWalk(m, to, depth, pending)
  }

  lemma {:induction false} StackPop(m: Blocks, to: BlockId, depth: nat, pending: seq<BlockInfo>)
    requires ParentsOk(m) && to in m && depth < m[to].info.depth && StackOk(m, to, depth, pending)
    requires pending[|pending| - 1].depth == depth + 1
    ensures StackOk(m, to, depth + 1, pending[..|pending| - 1])
    ensures pending[|pending| - 1] == m[ParentWalk(m, to, m[to].info.depth - depth - 1)].info
  {
  }

  /** A search back from the top of the stack for the next block, and what it leaves on the stack. */
  lemma {:induction false} StackPush(m: Blocks, to: BlockId, depth: nat, pending: seq<BlockInfo>,
                  parent: BlockId, distance: nat, path: seq<BlockInfo>, next: nat)
    requires ValidBlocks(m) && to in m && depth < m[to].info.depth && StackOk(m, to, depth, pending)
    requires var top := pending[|pending| - 1];
             && depth + 1 < top.depth && BackLink(1, parent) in top.backLinks
             && parent in m && m[parent].info.depth == top.depth - 1 && distance == top.depth - depth - 2
    requires next == depth + 1 && OnWalk(m, parent, next, path)
    ensures StackOk(m, to, next, pending + path)
    ensures ParentWalk(m, parent, distance) == ParentWalk(m, to, m[to].info.depth - next)
  {
    var top := pending[|pending| - 1];
    var back := m[to].info.depth - top.depth;
    ParentLinkUnique(m, ParentWalk(m, to, back), parent);
    WalkCompose(m, to, back, 1);
    WalkCompose(m, to, back + 1, top.depth - depth - 2);
    OnWalkConcat(m, to, depth + 1, pending, path);
  }

  lemma {:induction false} ParentLinkUnique(m: Blocks, id: BlockId, parent: BlockId)
    requires ValidBlocks(m) && id in m && BackLink(1, parent) in m[id].info.backLinks
    ensures m[id].info.depth >= 1 && parent == ParentWalk(m, id, 1)
  {
    assert ParentOk(m, id) && LinksOk(m, id);
  }

  class BlockIterator {
    const store: MemoryBlockStore
    ghost const to: BlockId
    const toDepth: nat
    var curDepth: nat
    var pendingInfos: seq<BlockInfo>

    ghost predicate Valid()
      reads this, store
    {
      && store.Valid() && to in store.blocks && store.blocks[to].info.depth == toDepth
      && curDepth <= toDepth
      && StackOk(store.blocks, to, curDepth, pendingInfos)
    }

    constructor (store: MemoryBlockStore, ghost to: BlockId, toInfo: BlockInfo, distance: nat)
      requires store.Valid() && to in store.blocks && store.blocks[to].info == toInfo && distance <= toInfo.depth
      ensures this.store == store && this.to == to && toDepth == toInfo.depth && curDepth == toInfo.depth - distance
      ensures Valid()
    {
      this.store, this.to, this.toDepth := store, to, toInfo.depth;
      curDepth := toInfo.depth - distance;
      pendingInfos := [toInfo];
    }

    /** Yield the next block of the range: the parent chain of `to`, oldest first. */
    method Next() returns (r: Option<Result<BlockInfo, Error>>)
      requires Valid()
      modifies this
      ensures Valid()
      ensures old(curDepth) == toDepth ==> r.None? && curDepth == toDepth
      ensures old(curDepth) < toDepth ==>
                && curDepth == old(curDepth) + 1
                && r == Some(Ok(store.blocks[ParentWalk(store.blocks, to, toDepth - curDepth)].info))
    {
      if curDepth >= toDepth {
        return None;
      }
      ghost var m, pending := store.blocks, pendingInfos;
      curDepth := curDepth + 1;
      var last := |pendingInfos| - 1;
      var blockInfo := pendingInfos[last];
      pendingInfos := pendingInfos[..last];
      if blockInfo.depth == curDepth {
        StackPop(m, to, curDepth - 1, pending);
        r := Some(Ok(blockInfo));
      } else {
        assert pendingInfos + [blockInfo] == pending;
        TopHasParent(m, to, curDepth - 1, pending);
        var info := SearchBack(blockInfo);
        r := Some(info);
      }
    }

    /** The next block is not on the stack: search back for it from the oldest block that is. */
    method SearchBack(blockInfo: BlockInfo) returns (info: Result<BlockInfo, Error>)
      requires store.Valid() && to in store.blocks && store.blocks[to].info.depth == toDepth
      requires 0 < curDepth <= toDepth && curDepth < blockInfo.depth
      requires StackOk(store.blocks, to, curDepth - 1, pendingInfos + [blockInfo])
      modifies this`pendingInfos
      ensures Valid()
      ensures info == Ok(store.blocks[ParentWalk(store.blocks, to, toDepth - curDepth)].info)
    {
      ghost var m := store.blocks;
      pendingInfos := pendingInfos + [blockInfo];
      TopHasParent(m, to, curDepth - 1, pendingInfos);
      var parent := blockInfo.ParentId();
      var distance, path := blockInfo.depth - curDepth - 1, [];
      info, path := store.GetPathToNthAncestor(parent, distance);
      StackPush(m, to, curDepth - 1, pendingInfos, parent, distance, path, curDepth);
      pendingInfos := pendingInfos + path;
    }
  }

  lemma {:induction false} TopHasParent(m: Blocks, to: BlockId, depth: nat, pending: seq<BlockInfo>)
    requires ValidBlocks(m) && to in m && depth < m[to].info.depth && StackOk(m, to, depth, pending)
    ensures var top := pending[|pending| - 1];
            && top.depth > depth && (exists l :: l in top.backLinks && l.distance == 1)
            && (top.depth > 1 ==> top.ParentId() in m && m[top.ParentId()].info.depth == top.depth - 1)
  {
    var top := pending[|pending| - 1];
    var id := ParentWalk(m, to, m[to].info.depth - top.depth);
    assert ParentOk(m, id);
    assert top.backLinks[0] in top.backLinks;
    ParentLinkUnique(m, id, top.ParentId());
  }

  /** The blocks passed on a walk from the parent of the top of the stack can be pushed on the stack. */
  lemma {:induction false} OnWalkConcat(m: Blocks, to: BlockId, limit: nat, pending: seq<BlockInfo>,
                                        path: seq<BlockInfo>)
    requires ParentsOk(m) && to in m && pending != []
    requires var top := pending[|pending| - 1];
             && limit < top.depth && 1 < top.depth && OnWalk(m, to, top.depth - 1, pending)
             && OnWalk(m, ParentWalk(m, to, m[to].info.depth - top.depth + 1), limit, path)
    ensures OnWalk(m, to, limit, pending + path)
    decreases |path|
  {
    var top := pending[|pending| - 1];
    if path == [] {
      assert pending + path == pending;
    } else {
      var last := |path| - 1;
      var back := m[to].info.depth - top.depth + 1;
      OnWalkConcat(m, to, path[last].depth, pending, path[..last]);
      WalkCompose(m, to, back, top.depth - 1 - path[last].depth);
      assert (pending + path)[..|pending| + last] == pending + path[..last];
    }
  }

  /**
   Everything an iteration over a range yields: exactly the blocks after `from` up to `to`, each once,
   every block being the parent of the next.
   */
  method CollectRange(store: MemoryBlockStore, from: BlockId, to: BlockId) returns (r: Result<seq<BlockInfo>, Error>)
    requires store.Valid()
    ensures r.Ok? <==> to in store.blocks && exists n :: StepsBack(store.blocks, to, from, n)
    ensures r.Ok? ==>
              && StepsBack(store.blocks, to, from, |r.value|)
              && forall i :: 0 <= i < |r.value| ==>
                   r.value[i] == store.blocks[ParentWalk(store.blocks, to, |r.value| - 1 - i)].info
  {
    var range := store.IterateRange(from, to);
    if range.Err? {
      return Err(range.error);
    }
    var it := range.value;
    var infos := [];
    ghost var first, m := it.curDepth, store.blocks;
    while it.curDepth < it.toDepth
      invariant it.Valid() && it.store == store && it.to == to && fresh(it) && store.blocks == m && store.Valid()
      invariant first + |infos| == it.curDepth
      invariant forall i :: 0 <= i < |infos| ==> infos[i] == m[ParentWalk(m, to, it.toDepth - first - 1 - i)].info
      decreases it.toDepth - it.curDepth
    {
      var info := it.Next();
      infos := infos + [info.value.value];
    }
    r := Ok(infos);
  }
}
