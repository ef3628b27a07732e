/** Iteration over the trie with an explicit stack (imhamt/src/hamt.rs). */
module HamtIteration {
  import opened Wrappers
  import opened SparseArray
  import opened HashLevels
  import opened LeafContent
  import opened Hamt

  // ----- the pairs below an entry

  ghost function EntryPairs<K, V>(e: Entry<K, V>): (s: seq<KV<K, V>>)
    decreases e, 0
  {
    match e
    case LeafEntry(c) => c.Items()
    case SubNode(sub) => Pairs(sub, |sub.items|)
  }

  /** The pairs of the first n children. */
  ghost function Pairs<K, V>(node: Node<K, V>, n: nat): (s: seq<KV<K, V>>)
    requires n <= |node.items|
    decreases node, n
  {
    if n == 0 then [] else Pairs(node, n - 1) + EntryPairs(node.items[n - 1])
  }

  /** The pairs of the children from a position on. */
  ghost function PairsFrom<K, V>(node: Node<K, V>, pos: nat): (s: seq<KV<K, V>>)
    requires pos <= |node.items|
    decreases |node.items| - pos
  {
    if pos == |node.items| then [] else EntryPairs(node.items[pos]) + PairsFrom(node, pos + 1)
  }

  lemma {:induction false} PairsSplit<K, V>(node: Node<K, V>, pos: nat)
    requires pos <= |node.items|
    ensures Pairs(node, pos) + PairsFrom(node, pos) == Pairs(node, |node.items|)
    decreases |node.items| - pos
  {
    if pos < |node.items| {
      PairsSplit(node, pos + 1);
      var e := EntryPairs(node.items[pos]);
      assert Pairs(node, pos) + (e + PairsFrom(node, pos + 1)) == (Pairs(node, pos) + e) + PairsFrom(node, pos + 1);
    }
  }

  lemma {:induction false} PairsFromStart<K, V>(node: Node<K, V>)
    ensures PairsFrom(node, 0) == Pairs(node, |node.items|)
  {
    PairsSplit(node, 0);
    assert Pairs(node, 0) == [];
  }

  // ----- the iterator

  /** A position in the children of a node. */
  datatype NodeIter<K, V> = NodeIter(node: Node<K, V>, pos: nat)

  ghost predicate StackOk<K, V>(stack: seq<NodeIter<K, V>>) {
    forall i :: 0 <= i < |stack| ==> stack[i].pos <= |stack[i].node.items|
  }

  /** What is left on the stack, the top first. */
  ghost function StackPairs<K, V>(stack: seq<NodeIter<K, V>>): (s: seq<KV<K, V>>)
    requires StackOk(stack)
  {
    if stack == [] then []
    else
      var n := |stack| - 1;
      PairsFrom(stack[n].node, stack[n].pos) + StackPairs(stack[..n])
  }

  /** How many steps an entry, and the children from a position on, can still take. */
  ghost function EntryWork<K, V>(e: Entry<K, V>): (n: nat)
    decreases e, 0
  {
    match e
    case LeafEntry(_) => 2
    case SubNode(sub) => 2 + Work(sub, 0)
  }

  ghost function Work<K, V>(node: Node<K, V>, pos: nat): (n: nat)
    requires pos <= |node.items|
    decreases node, |node.items| - pos
  {
    if pos == |node.items| then 0 else EntryWork(node.items[pos]) + Work(node, pos + 1)
  }

  ghost function StackWork<K, V>(stack: seq<NodeIter<K, V>>): (n: nat)
    requires StackOk(stack)
  {
    if stack == [] then 0
    else
      var n := |stack| - 1;
      1 + Work(stack[n].node, stack[n].pos) + StackWork(stack[..n])
  }

  lemma {:induction false} Popped<K, V>(stack: seq<NodeIter<K, V>>)
    requires StackOk(stack) && stack != [] && stack[|stack| - 1].pos == |stack[|stack| - 1].node.items|
    ensures StackOk(stack[..|stack| - 1])
    ensures StackPairs(stack[..|stack| - 1]) == StackPairs(stack)
    ensures StackWork(stack[..|stack| - 1]) + 1 == StackWork(stack)
  {
  }

  lemma {:induction false} PushedOnStack<K, V>(stack: seq<NodeIter<K, V>>, x: NodeIter<K, V>)
    requires StackOk(stack) && x.pos <= |x.node.items|
    ensures StackOk(stack + [x])
    ensures StackPairs(stack + [x]) == PairsFrom(x.node, x.pos) + StackPairs(stack)
    ensures StackWork(stack + [x]) == 1 + Work(x.node, x.pos) + StackWork(stack)
  {
    assert (stack + [x])[..|stack|] == stack;
  }

  /** The top moves past one child. */
  lemma {:induction false} Advanced<K, V>(stack: seq<NodeIter<K, V>>, moved: seq<NodeIter<K, V>>, top: NodeIter<K, V>)
    requires StackOk(stack) && stack != [] && top == stack[|stack| - 1] && top.pos < |top.node.items|
    requires moved == stack[..|stack| - 1] + [top.(pos := top.pos + 1)]
    ensures StackOk(moved)
    ensures StackPairs(stack) == EntryPairs(top.node.items[top.pos]) + StackPairs(moved)
    ensures StackWork(stack) == EntryWork(top.node.items[top.pos]) + StackWork(moved)
  {
    var below := stack[..|stack| - 1];
    PushedOnStack(below, top.(pos := top.pos + 1));
    var e := EntryPairs(top.node.items[top.pos]);
    var rest := PairsFrom(top.node, top.pos + 1);
    assert (e + rest) + StackPairs(below) == e + (rest + StackPairs(below));
  }

  class HamtIter<K, V> {
    var stack: seq<NodeIter<K, V>>
    var content: Option<seq<KV<K, V>>>

    constructor (root: Node<K, V>)
      ensures Valid() && Rest() == Pairs(root, |root.items|)
    {
      stack, content := [NodeIter(root, 0)], None;
      new;
      PairsFromStart(root);
      PushedOnStack([], NodeIter(root, 0));
      assert [] + [NodeIter(root, 0)] == stack;
    }

    ghost predicate Valid()
      reads this
    {
      StackOk(stack)
    }

    /** What is still to come. */
    ghost function Rest(): (s: seq<KV<K, V>>)
      requires Valid()
      reads this
    {
      (match content case None => [] case Some(items) => items) + StackPairs(stack)
    }

    /** The next pair, if there is one. */
    method Next() returns (r: Option<KV<K, V>>)
      requires Valid()
      modifies this
      ensures Valid()
      ensures r == if old(Rest()) == [] then None else Some(old(Rest())[0])
      ensures Rest() == if old(Rest()) == [] then [] else old(Rest())[1..]
    {
      ghost var rest := Rest();
      while true
        invariant Valid() && Rest() == rest
        decreases StackWork(stack) + if content.Some? then 1 else 0
      {
        match content {
          case Some(items) =>
            if items == [] {
              content := None;
            } else {
              content := Some(items[1..]);
              return Some(items[0]);
            }
          case None =>
            if stack == [] {
              return None;
            }
            Step();
        }
      }
    }

    /** Without a leaf at hand: the top of the stack moves on. */
    method Step()
      requires Valid() && content.None? && stack != []
      modifies this
      ensures Valid() && Rest() == old(Rest())
      ensures StackWork(stack) + (if content.Some? then 1 else 0) < old(StackWork(stack))
    {
      var top := stack[|stack| - 1];
      if top.pos == |top.node.items| {
        Popped(stack);
        stack := stack[..|stack| - 1];
        return;
      }
      var moved := stack[..|stack| - 1] + [top.(pos := top.pos + 1)];
      Advanced(stack, moved, top);
      match top.node.items[top.pos] {
        case SubNode(sub) =>
          PushedOnStack(moved, NodeIter(sub, 0));
          PairsFromStart(sub);
          stack := moved + [NodeIter(sub, 0)];
        case LeafEntry(leaf) =>
          stack := moved;
          content := Some(leaf.Items());
      }
    }
  }

  method Drain<K, V>(iter: HamtIter<K, V>) returns (pairs: seq<KV<K, V>>)
    requires iter.Valid()
    modifies iter
    ensures pairs == old(iter.Rest())
  {
    ghost var all, rest := iter.Rest(), iter.Rest();
    pairs := [];
    while true
      invariant iter.Valid() && iter.Rest() == rest && pairs + rest == all
      decreases |rest|
    {
      var next := iter.Next();
      if next.None? {
        return;
      }
      pairs := pairs + [next.value];
      rest := rest[1..];
    }
  }

  // ----- the pairs are those of the map

  lemma {:induction false} GetConcat<K, V>(a: seq<KV<K, V>>, b: seq<KV<K, V>>, k: K)
    requires DistinctKeys(a + b)
    ensures Get(a + b, k) == if Get(a, k).Some? then Get(a, k) else Get(b, k)
  {
    var s := a + b;
    assert DistinctKeys(a) && DistinctKeys(b) by {
      assert forall i :: 0 <= i < |a| ==> a[i] == s[i];
      assert forall i :: 0 <= i < |b| ==> b[i] == s[|a| + i];
    }
    match Find(a, k)
    case Some(i) => GetSame(a, s, i, i);
    case None =>
      match Find(b, k)
      case Some(i) => GetSame(b, s, i, |a| + i);
      case None => GetNone(s, k);
  }

  lemma {:induction false} DistinctConcat<K, V>(a: seq<KV<K, V>>, b: seq<KV<K, V>>)
    requires DistinctKeys(a) && DistinctKeys(b)
    requires forall i, j :: 0 <= i < |a| && 0 <= j < |b| ==> a[i].key != b[j].key
    ensures DistinctKeys(a + b)
  {
  }

  /** All keys follow a path. */
  ghost predicate AllFollow<K, V>(s: seq<KV<K, V>>, path: seq<Slot>, hash: K -> Hash64) {
    forall i :: 0 <= i < |s| ==> Matches(hash(s[i].key), path)
  }

  /** All keys are in slots before n. */
  ghost predicate AllBefore<K, V>(s: seq<KV<K, V>>, path: seq<Slot>, hash: K -> Hash64, n: nat) {
    forall i :: 0 <= i < |s| ==> Matches(hash(s[i].key), path) && LevelIndex(hash(s[i].key), |path|) < n
  }

  /** What is claimed of the pairs below an entry: distinct keys that follow its path. */
  lemma {:induction false} EntryPairsDistinct<K, V>(e: Entry<K, V>, path: seq<Slot>, hash: K -> Hash64)
    requires EntryOk(e, path, hash)
    ensures DistinctKeys(EntryPairs(e)) && AllFollow(EntryPairs(e), path, hash)
    decreases e, 0
  {
    match e
    case LeafEntry(_) =>
    case SubNode(sub) => SlotPairsDistinct(sub, path, hash, 32);
  }

  /** One slot more is one child more, or none. */
  lemma {:induction false} PairsNext<K, V>(node: Node<K, V>, n: nat)
    requires node.Valid() && 0 < n <= 32
    ensures Ones(node.bitmap, n - 1) <= Ones(node.bitmap, n) <= |node.items|
    ensures Pairs(node, Ones(node.bitmap, n)) == Pairs(node, Ones(node.bitmap, n - 1)) +
            if node.bitmap[n - 1] then EntryPairs(node.items[GetIndexSparse(node.bitmap, n - 1)]) else []
  {
    OnesMonotone(node.bitmap, n, 32);
  }

  lemma {:induction false} SlotPairsDistinct<K, V>(node: Node<K, V>, path: seq<Slot>, hash: K -> Hash64, n: nat)
    requires NodeOk(node, path, hash) && n <= 32
    ensures Ones(node.bitmap, n) <= |node.items|
    ensures DistinctKeys(Pairs(node, Ones(node.bitmap, n)))
    ensures AllBefore(Pairs(node, Ones(node.bitmap, n)), path, hash, n)
    decreases node, n
  {
    if n > 0 {
      SlotPairsDistinct(node, path, hash, n - 1);
      PairsNext(node, n);
      var before := Pairs(node, Ones(node.bitmap, n - 1));
      if node.bitmap[n - 1] {
        ChildOk(node, path, hash, n - 1);
        var child := node.items[GetIndexSparse(node.bitmap, n - 1)];
        EntryPairsDistinct(child, path + [n - 1], hash);
        OneSlotMore(path, hash, n - 1, before, EntryPairs(child));
      } else {
        assert Pairs(node, Ones(node.bitmap, n)) == before;
      }
    }
  }

  lemma {:induction false} OneSlotMore<K, V>(path: seq<Slot>, hash: K -> Hash64, s: Slot, before: seq<KV<K, V>>,
                                             here: seq<KV<K, V>>)
    requires DistinctKeys(before) && AllBefore(before, path, hash, s)
    requires DistinctKeys(here) && AllFollow(here, path + [s], hash)
    ensures DistinctKeys(before + here) && AllBefore(before + here, path, hash, s + 1)
  {
    forall i | 0 <= i < |here| ensures Matches(hash(here[i].key), path) && LevelIndex(hash(here[i].key), |path|) == s {
      MatchesLast(hash(here[i].key), path, s);
    }
    DistinctConcat(before, here);
  }

  /** The pairs below an entry map as the entry does. */
  lemma {:induction false} EntryPairsGet<K, V>(e: Entry<K, V>, path: seq<Slot>, hash: K -> Hash64, k: K)
    requires EntryOk(e, path, hash)
    ensures Get(EntryPairs(e), k) == EntryGet(e, path, hash, k)
    decreases e, 0
  {
    match e
    case LeafEntry(c) =>
      if Find(c.Items(), k).Some? {
        assert hash(c.Items()[Find(c.Items(), k).value].key) == c.hashed;
      }
    case SubNode(sub) =>
      SlotPairsGet(sub, path, hash, 32, k);
  }

  lemma {:induction false} OneMoreGet<K, V>(before: seq<KV<K, V>>, here: seq<KV<K, V>>, k: K, t: nat, s: nat,
                                            value: Option<V>)
    requires DistinctKeys(before + here)
    requires Get(before, k) == (if t < s then value else None) && Get(here, k) == if t == s then value else None
    ensures Get(before + here, k) == if t < s + 1 then value else None
  {
    GetConcat(before, here, k);
  }

  /** What a slot holds for a key that can only be in slot t. */
  ghost predicate OnlyIn<K, V>(node: Node<K, V>, k: K, t: Slot, value: Option<V>)
    requires node.Valid()
  {
    && (value.Some? ==> node.bitmap[t])
    && forall s: Slot :: node.bitmap[s] ==>
         Get(EntryPairs(node.items[GetIndexSparse(node.bitmap, s)]), k) == if s == t then value else None
  }

  /** What the pairs of the slots before n give for such a key. */
  lemma {:induction false} SlotPairsAre<K, V>(node: Node<K, V>, path: seq<Slot>, hash: K -> Hash64, n: nat, k: K,
                                              t: Slot, value: Option<V>)
    requires NodeOk(node, path, hash) && n <= 32 && OnlyIn(node, k, t, value)
    ensures Ones(node.bitmap, n) <= |node.items|
    ensures Get(Pairs(node, Ones(node.bitmap, n)), k) == if t < n then value else None
    decreases n
  {
    SlotPairsDistinct(node, path, hash, n);
    if n > 0 {
      SlotPairsAre(node, path, hash, n - 1, k, t, value);
      PairsNext(node, n);
      var before := Pairs(node, Ones(node.bitmap, n - 1));
      var here := if node.bitmap[n - 1] then EntryPairs(node.items[GetIndexSparse(node.bitmap, n - 1)]) else [];
      assert Get(here, k) == if t == n - 1 then value else None;
      OneMoreGet(before, here, k, t, n - 1, value);
    }
  }

  lemma {:induction false} SlotPairsGet<K, V>(node: Node<K, V>, path: seq<Slot>, hash: K -> Hash64, n: nat, k: K)
    requires NodeOk(node, path, hash) && n <= 32
    ensures Ones(node.bitmap, n) <= |node.items|
    ensures Get(Pairs(node, Ones(node.bitmap, n)), k) ==
            if LevelIndex(hash(k), |path|) < n then NodeGet(node, path, hash, k) else None
    decreases node, 1
  {
    var t, value := LevelIndex(hash(k), |path|), NodeGet(node, path, hash, k);
    forall s: Slot | node.bitmap[s]
      ensures Get(EntryPairs(node.items[GetIndexSparse(node.bitmap, s)]), k) == if s == t then value else None
    {
      ChildOk(node, path, hash, s);
      ChildPairs(node, path, hash, s, k);
    }
    SlotPairsAre(node, path, hash, n, k, t, value);
  }

  lemma {:induction false} ChildPairs<K, V>(node: Node<K, V>, path: seq<Slot>, hash: K -> Hash64, s: Slot, k: K)
    requires NodeOk(node, path, hash) && node.bitmap[s]
    requires EntryOk(node.items[GetIndexSparse(node.bitmap, s)], path + [s], hash)
    ensures Get(EntryPairs(node.items[GetIndexSparse(node.bitmap, s)]), k) ==
            if InSlot(k, path, hash, s) then NodeGet(node, path, hash, k) else None
    decreases node, 0
  {
    var child := node.items[GetIndexSparse(node.bitmap, s)];
    EntryPairsGet(child, path + [s], hash, k);
    EntryPairsDistinct(child, path + [s], hash);
    match Find(EntryPairs(child), k)
    case None =>
    case Some(i) => MatchesLast(hash(EntryPairs(child)[i].key), path, s);
  }

  /** Iterating over a trie yields exactly the pairs of its map, each key once. */
  lemma {:induction false} PairsRepresent<K(!new), V>(root: Node<K, V>, m: map<K, V>, hash: K -> Hash64)
    requires Represents(root, m, hash)
    ensures DistinctKeys(Pairs(root, |root.items|))
    ensures forall k :: Get(Pairs(root, |root.items|), k) == if k in m then Some(m[k]) else None
  {
    SlotPairsDistinct(root, [], hash, 32);
    forall k ensures Get(Pairs(root, |root.items|), k) == NodeGet(root, [], hash, k) {
      SlotPairsGet(root, [], hash, 32, k);
    }
  }

  method Collect<K(!new), V>(root: Node<K, V>, ghost m: map<K, V>,
                   ghost hash: K -> Hash64) returns (pairs: seq<KV<K, V>>)
    requires Represents(root, m, hash)
    ensures DistinctKeys(pairs) && forall k :: Get(pairs, k) == if k in m then Some(m[k]) else None
  {
    var iter := new HamtIter(root);
    pairs := Drain(iter);
    PairsRepresent(root, m, hash);
  }
}
