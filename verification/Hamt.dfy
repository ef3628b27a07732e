/** The hash array mapped trie as a finite map (imhamt/src/node/reference.rs, imhamt/src/hamt.rs). */
module Hamt {
  import opened Wrappers
  import opened SparseArray
  import opened HashLevels
  import opened LeafContent

  datatype Entry<K, V> = LeafEntry(content: Leaf<K, V>) | SubNode(node: Sparse<Entry<K, V>>)

  type Node<K, V> = Sparse<Entry<K, V>>

  // ----- well-formed tries

  /** Every hash below a node starts with the slots on the path to it. */
  ghost predicate NodeOk<K, V>(node: Node<K, V>, path: seq<Slot>, hash: K -> Hash64)
    decreases node
  {
    && |path| < LEVELS
    && node.Valid()
    && forall s: Slot :: node.bitmap[s] ==> EntryOk(node.items[GetIndexSparse(node.bitmap, s)], path + [s], hash)
  }

  ghost predicate EntryOk<K, V>(e: Entry<K, V>, path: seq<Slot>, hash: K -> Hash64)
    decreases e
  {
    match e
    case LeafEntry(c) => LeafOk(c, hash) && Matches(c.hashed, path)
    case SubNode(n) => !IsZero(n.bitmap) && NodeOk(n, path, hash)
  }

  // ----- lookup

  /** What a key is mapped to below a node, or below an entry. */
  ghost function NodeGet<K, V>(node: Node<K, V>, path: seq<Slot>, hash: K -> Hash64, k: K): (r: Option<V>)
    requires NodeOk(node, path, hash)
    decreases node
  {
    var s := LevelIndex(hash(k), |path|);
    if node.bitmap[s] then EntryGet(node.items[GetIndexSparse(node.bitmap, s)], path + [s], hash, k) else None
  }

  ghost function EntryGet<K, V>(e: Entry<K, V>, path: seq<Slot>, hash: K -> Hash64, k: K): (r: Option<V>)
    requires EntryOk(e, path, hash)
    decreases e
  {
    match e
    case LeafEntry(c) => FindIn(c, hash(k), k)
    case SubNode(n) => NodeGet(n, path, hash, k)
  }

  datatype LookupRet<K, V> = Found(value: V) | NotFound | ContinueIn(node: Node<K, V>)

  function LookupOne<K(==), V>(node: Node<K, V>, h: Hash64, level: nat, k: K): (r: LookupRet<K, V>)
    requires node.Valid()
  {
    if GetIndexSparse(node.bitmap, LevelIndex(h, level)) == NOT_FOUND then NotFound
    else
      match node.items[GetIndexSparse(node.bitmap, LevelIndex(h, level))]
      case LeafEntry(c) => (match FindIn(c, h, k) case None => NotFound case Some(v) => Found(v))
      case SubNode(sub) => ContinueIn(sub)
  }

  /** The loop down the levels ends, after at most thirteen nodes, with what the key is mapped to. */
  method Lookup<K(==), V>(root: Node<K, V>, k: K, hash: K -> Hash64) returns (r: Option<V>)
    requires NodeOk(root, [], hash)
    ensures r == NodeGet(root, [], hash, k)
  {
    var n := root;
    var level := 0;
    ghost var path: seq<Slot> := [];
    while true
      invariant level == |path| && NodeOk(n, path, hash) && NodeGet(n, path, hash, k) == NodeGet(root, [], hash, k)
      decreases LEVELS - level
    {
      match LookupOne(n, hash(k), level, k)
      case NotFound => return None;
      case Found(v) => return Some(v);
      case ContinueIn(sub) =>
        path := path + [LevelIndex(hash(k), level)];
        level := level + 1;
        n := sub;
    }
  }

  lemma {:induction false} ChildOk<K, V>(node: Node<K, V>, path: seq<Slot>, hash: K -> Hash64, s: Slot)
    requires NodeOk(node, path, hash) && node.bitmap[s]
    ensures EntryOk(node.items[GetIndexSparse(node.bitmap, s)], path + [s], hash)
  {
  }

  // ----- changing one slot

  ghost predicate InSlot<K>(q: K, path: seq<Slot>, hash: K -> Hash64, s: Slot) {
    LevelIndex(hash(q), |path|) == s
  }

  /** A node in which one slot holds another entry, or none. */
  ghost predicate Changed<K, V>(x: Node<K, V>, y: Node<K, V>, s: Slot, e: Option<Entry<K, V>>) {
    && x.Valid() && y.Valid()
    && forall t: Slot :: y.At(t) == if t == s then e else x.At(t)
  }

  lemma {:induction false} ChangedOk<K, V>(x: Node<K, V>, y: Node<K, V>, s: Slot, e: Option<Entry<K, V>>,
                                           path: seq<Slot>, hash: K -> Hash64)
    requires NodeOk(x, path, hash) && Changed(x, y, s, e) && (e.Some? ==> EntryOk(e.value, path + [s], hash))
    ensures NodeOk(y, path, hash)
  {
    forall t: Slot | y.bitmap[t] ensures EntryOk(y.items[GetIndexSparse(y.bitmap, t)], path + [t], hash) {
      assert y.At(t) == if t == s then e else x.At(t);
    }
  }

  /** The keys of other slots keep their values. */
  lemma {:induction false} ChangedGet<K, V>(x: Node<K, V>, y: Node<K, V>, s: Slot, e: Option<Entry<K, V>>,
                                            path: seq<Slot>, hash: K -> Hash64, q: K)
    requires NodeOk(x, path, hash) && NodeOk(y, path, hash) && Changed(x, y, s, e)
    requires e.Some? ==> EntryOk(e.value, path + [s], hash)
    ensures NodeGet(y, path, hash, q) ==
            if !InSlot(q, path, hash, s) then NodeGet(x, path, hash, q)
            else if e.None? then None else EntryGet(e.value, path + [s], hash, q)
  {
    var t := LevelIndex(hash(q), |path|);
    assert y.At(t) == if t == s then e else x.At(t);
  }

  lemma {:induction false} SetChanges<K, V>(x: Node<K, V>, s: Slot, e: Entry<K, V>)
    requires x.Valid() && !x.bitmap[s]
    ensures Changed(x, x.SetAt(s, e), s, Some(e)) && !IsZero(x.SetAt(s, e).bitmap)
  {
    forall t: Slot ensures x.SetAt(s, e).Valid() && x.SetAt(s, e).At(t) == if t == s then Some(e) else x.At(t) {
      SetAtAt(x, s, e, t);
    }
    SetAtAt(x, s, e, s);
    assert x.SetAt(s, e).bitmap[s];
  }

  lemma {:induction false} ReplaceChanges<K, V>(x: Node<K, V>, s: Slot, e: Entry<K, V>)
    requires x.Valid() && x.bitmap[s]
    ensures Changed(x, x.ReplaceAt(GetIndexSparse(x.bitmap, s), e), s, Some(e))
  {
    var y := x.ReplaceAt(GetIndexSparse(x.bitmap, s), e);
    forall t: Slot ensures y.Valid() && y.At(t) == if t == s then Some(e) else x.At(t) {
      ReplaceAtAt(x, s, e, t);
    }
  }

  lemma {:induction false} ClearChanges<K, V>(x: Node<K, V>, s: Slot)
    requires x.Valid() && x.bitmap[s]
    ensures x.ClearAt(s).Some? ==> Changed(x, x.ClearAt(s).value, s, None) && !IsZero(x.ClearAt(s).value.bitmap)
    ensures x.ClearAt(s).None? ==> forall t: Slot :: x.bitmap[t] <==> t == s
  {
    forall t: Slot
      ensures x.ClearAt(s).Some? ==>
                x.ClearAt(s).value.Valid() && x.ClearAt(s).value.At(t) == (if t == s then None else x.At(t))
      ensures x.ClearAt(s).None? ==> (x.bitmap[t] <==> t == s)
    {
      ClearAtAt(x, s, t);
    }
    ClearAtAt(x, s, s);
  }

  // ----- insertion

  lemma {:induction false} EmptyOk<K, V>(path: seq<Slot>, hash: K -> Hash64, q: K)
    requires |path| < LEVELS
    ensures NodeOk<K, V>(Empty(), path, hash) && NodeGet<K, V>(Empty(), path, hash, q) == None
  {
    EmptyAt<Entry<K, V>>(0);
  }

  /** The node that holds one leaf. */
  function Pushed<K, V>(c: Leaf<K, V>, level: nat): (n: Node<K, V>)
    ensures n.Valid() && forall t: Slot :: n.bitmap[t] <==> t == LevelIndex(c.hashed, level)
  {
    EmptyValid<Entry<K, V>>(LevelIndex(c.hashed, level));
    SingletonSlots<Entry<K, V>>(LevelIndex(c.hashed, level), LeafEntry(c));
    Empty<Entry<K, V>>().SetAt(LevelIndex(c.hashed, level), LeafEntry(c))
  }

  /** Pushing a leaf one level down changes no lookup. */
  lemma {:induction false} PushedOk<K, V>(c: Leaf<K, V>, path: seq<Slot>, hash: K -> Hash64, q: K)
    requires |path| < LEVELS && LeafOk(c, hash) && Matches(c.hashed, path)
    ensures NodeOk(Pushed(c, |path|), path, hash) && !IsZero(Pushed(c, |path|).bitmap)
    ensures NodeGet(Pushed(c, |path|), path, hash, q) == FindIn(c, hash(q), q)
  {
    var x, s, e := Empty<Entry<K, V>>(), LevelIndex(c.hashed, |path|), LeafEntry(c);
    EmptyOk<K, V>(path, hash, q);
    SetChanges(x, s, e);
    MatchesNext(c.hashed, path);
    ChangedOk(x, Pushed(c, |path|), s, Some(e), path, hash);
    ChangedGet(x, Pushed(c, |path|), s, Some(e), path, hash, q);
  }

  function InsertRec<K(==), V>(node: Node<K, V>, h: Hash64, level: nat, kv: KV<K, V>, ghost path: seq<Slot>,
                       ghost hash: K -> Hash64)
    : (r: Result<Node<K, V>, InsertError>)
    requires NodeOk(node, path, hash) && level == |path| && Matches(h, path) && hash(kv.key) == h
    decreases LEVELS - level, 1
  {
    var s := LevelIndex(h, level);
    if GetIndexSparse(node.bitmap, s) == NOT_FOUND then Ok(node.SetAt(s, LeafEntry(Single(h, kv))))
    else
      ChildOk(node, path, hash, s);
      MatchesNext(h, path);
      match InsertEntry(node.items[GetIndexSparse(node.bitmap, s)], h, level + 1, kv, path + [s], hash)
      case Err(e) => Err(e)
      case Ok(e) => Ok(node.ReplaceAt(GetIndexSparse(node.bitmap, s), e))
  }

  /** A leaf of the same hash takes the pair; any other leaf moves into a subnode with it. */
  function InsertEntry<K(==), V>(e: Entry<K, V>, h: Hash64, level: nat, kv: KV<K, V>, ghost path: seq<Slot>,
                         ghost hash: K -> Hash64)
    : (r: Result<Entry<K, V>, InsertError>)
    requires EntryOk(e, path, hash) && level == |path| <= LEVELS && Matches(h, path) && hash(kv.key) == h
    decreases LEVELS - level, 3
  {
    match e
    case LeafEntry(c) =>
      if c.hashed == h then (
        match Add(c, kv)
        case Err(e) => Err(e)
        case Ok(more) => Ok(LeafEntry(more)))
      else
        DeeperLevel(h, c.hashed, path);
        (match Beside(c, h, level, kv, path, hash)
         case Err(e) => Err(e)
         case Ok(sub) => Ok(SubNode(sub)))
    case SubNode(sub) =>
      match InsertRec(sub, h, level, kv, path, hash)
      case Err(e) => Err(e)
      case Ok(n) => Ok(SubNode(n))
  }

  /** The subnode that takes the place of a leaf of another hash. */
  function Beside<K(==), V>(c: Leaf<K, V>, h: Hash64, level: nat, kv: KV<K, V>, ghost path: seq<Slot>,
                    ghost hash: K -> Hash64)
    : (r: Result<Node<K, V>, InsertError>)
    requires level == |path| < LEVELS && LeafOk(c, hash)
    requires Matches(c.hashed, path) && Matches(h, path) && hash(kv.key) == h
    decreases LEVELS - level, 2
  {
    if LevelIndex(h, level) != LevelIndex(c.hashed, level) then Ok(Split(c, h, kv, level))
    else
      PushedOk(c, path, hash, kv.key);
      InsertRec(Pushed(c, level), h, level, kv, path, hash)
  }

  /** Two different hashes never share the slots of all levels. */
  lemma {:induction false} DeeperLevel(h: Hash64, g: Hash64, path: seq<Slot>)
    requires h != g && Matches(h, path) && Matches(g, path) && |path| <= LEVELS
    ensures |path| < LEVELS
  {
    if |path| == LEVELS {
      SamePathSameHash(h, g, path);
    }
  }

  /** The node that holds one leaf and one more pair, in another slot. */
  function Split<K, V>(c: Leaf<K, V>, h: Hash64, kv: KV<K, V>, level: nat): (n: Node<K, V>)
    requires LevelIndex(h, level) != LevelIndex(c.hashed, level)
  {
    Pushed(c, level).SetAt(LevelIndex(h, level), LeafEntry(Single(h, kv)))
  }

  /** If an entry maps every key as before, but for one key of its slot, then so does the node. */
  lemma {:induction false} ReplaceMeaning<K, V>(node: Node<K, V>, path: seq<Slot>, hash: K -> Hash64, s: Slot,
                                                e: Entry<K, V>, k: K, value: Option<V>, q: K)
    requires NodeOk(node, path, hash) && node.bitmap[s] && InSlot(k, path, hash, s) && EntryOk(e, path + [s], hash)
    requires EntryOk(node.items[GetIndexSparse(node.bitmap, s)], path + [s], hash)
    requires EntryGet(e, path + [s], hash, q) ==
             if q == k then value else EntryGet(node.items[GetIndexSparse(node.bitmap, s)], path + [s], hash, q)
    ensures NodeOk(node.ReplaceAt(GetIndexSparse(node.bitmap, s), e), path, hash)
    ensures NodeGet(node.ReplaceAt(GetIndexSparse(node.bitmap, s), e), path, hash, q) ==
            if q == k then value else NodeGet(node, path, hash, q)
  {
    var y := node.ReplaceAt(GetIndexSparse(node.bitmap, s), e);
    ReplaceChanges(node, s, e);
    ChangedOk(node, y, s, Some(e), path, hash);
    ChangedGet(node, y, s, Some(e), path, hash, q);
  }

  lemma {:induction false} SetMeaningInNode<K, V>(node: Node<K, V>, path: seq<Slot>, hash: K -> Hash64, s: Slot,
                                                  kv: KV<K, V>, q: K)
    requires NodeOk(node, path, hash) && !node.bitmap[s] && InSlot(kv.key, path, hash, s) && Matches(hash(kv.key), path)
    ensures NodeOk(node.SetAt(s, LeafEntry(Single(hash(kv.key), kv))), path, hash)
    ensures !IsZero(node.SetAt(s, LeafEntry(Single(hash(kv.key), kv))).bitmap)
    ensures NodeGet(node.SetAt(s, LeafEntry(Single(hash(kv.key), kv))), path, hash, q) ==
            if q == kv.key then Some(kv.value) else NodeGet(node, path, hash, q)
  {
    var e := LeafEntry(Single(hash(kv.key), kv));
    SingleMeaning(hash(kv.key), kv, hash, q);
    MatchesNext(hash(kv.key), path);
    SetChanges(node, s, e);
    ChangedOk(node, node.SetAt(s, e), s, Some(e), path, hash);
    ChangedGet(node, node.SetAt(s, e), s, Some(e), path, hash, q);
  }

  lemma {:induction false} SplitMeaning<K, V>(c: Leaf<K, V>, kv: KV<K, V>, path: seq<Slot>, hash: K -> Hash64, q: K)
    requires |path| < LEVELS && LeafOk(c, hash) && Matches(c.hashed, path) && Matches(hash(kv.key), path)
    requires LevelIndex(hash(kv.key), |path|) != LevelIndex(c.hashed, |path|)
    ensures NodeOk(Split(c, hash(kv.key), kv, |path|), path, hash) && !IsZero(Split(c, hash(kv.key), kv, |path|).bitmap)
    ensures NodeGet(Split(c, hash(kv.key), kv, |path|), path, hash, q) ==
            if q == kv.key then Some(kv.value) else FindIn(c, hash(q), q)
  {
    var s := LevelIndex(hash(kv.key), |path|);
    PushedOk(c, path, hash, q);
    SetMeaningInNode(Pushed(c, |path|), path, hash, s, kv, q);
  }

  /** Insertion fails exactly on a key that is there; otherwise the trie stays well-formed and just that key is new. */
  lemma {:induction false} InsertMeaning<K, V>(node: Node<K, V>, kv: KV<K, V>, path: seq<Slot>, hash: K -> Hash64, q: K)
    requires NodeOk(node, path, hash) && Matches(hash(kv.key), path)
    ensures var r := InsertRec(node, hash(kv.key), |path|, kv, path, hash);
            && (r.Err? <==> NodeGet(node, path, hash, kv.key).Some?)
            && (r.Ok? ==> NodeOk(r.value, path, hash) && !IsZero(r.value.bitmap))
            && (r.Ok? ==>
                  NodeGet(r.value, path, hash, q) ==
                  if q == kv.key then Some(kv.value) else NodeGet(node, path, hash, q))
    decreases LEVELS - |path|, 1
  {
    var h := hash(kv.key);
    var s := LevelIndex(h, |path|);
    if !node.bitmap[s] {
      SetMeaningInNode(node, path, hash, s, kv, q);
    } else {
      ChildOk(node, path, hash, s);
      MatchesNext(h, path);
      var child := node.items[GetIndexSparse(node.bitmap, s)];
      InsertEntryMeaning(child, kv, path + [s], hash, q);
      match InsertEntry(child, h, |path| + 1, kv, path + [s], hash)
      case Err(_) =>
      case Ok(e) => ReplaceMeaning(node, path, hash, s, e, kv.key, Some(kv.value), q);
    }
  }

  lemma {:induction false} InsertEntryMeaning<K, V>(e: Entry<K, V>, kv: KV<K, V>, path: seq<Slot>, hash: K -> Hash64,
                                                    q: K)
    requires EntryOk(e, path, hash) && |path| <= LEVELS && Matches(hash(kv.key), path)
    ensures var r := InsertEntry(e, hash(kv.key), |path|, kv, path, hash);
            && (r.Err? <==> EntryGet(e, path, hash, kv.key).Some?)
            && (r.Ok? ==> EntryOk(r.value, path, hash))
            && (r.Ok? ==>
                  EntryGet(r.value, path, hash, q) ==
                  if q == kv.key then Some(kv.value) else EntryGet(e, path, hash, q))
    decreases LEVELS - |path|, 3
  {
    match e
    case LeafEntry(c) =>
      if c.hashed == hash(kv.key) {
        AddMeaning(c, kv, hash, q);
      } else {
        DeeperLevel(hash(kv.key), c.hashed, path);
        BesideMeaning(c, kv, path, hash, q);
      }
    case SubNode(sub) => InsertMeaning(sub, kv, path, hash, q);
  }

  lemma {:induction false} BesideMeaning<K, V>(c: Leaf<K, V>, kv: KV<K, V>, path: seq<Slot>, hash: K -> Hash64, q: K)
    requires |path| < LEVELS && LeafOk(c, hash) && Matches(c.hashed, path) && Matches(hash(kv.key), path)
    requires c.hashed != hash(kv.key)
    ensures var r := Beside(c, hash(kv.key), |path|, kv, path, hash);
            && r.Ok? && NodeOk(r.value, path, hash) && !IsZero(r.value.bitmap)
            && NodeGet(r.value, path, hash, q) == if q == kv.key then Some(kv.value) else FindIn(c, hash(q), q)
    decreases LEVELS - |path|, 2
  {
    if LevelIndex(hash(kv.key), |path|) != LevelIndex(c.hashed, |path|) {
      SplitMeaning(c, kv, path, hash, q);
    } else {
      PushedOk(c, path, hash, kv.key);
      PushedOk(c, path, hash, q);
      InsertMeaning(Pushed(c, |path|), kv, path, hash, q);
    }
  }

  // ----- update, removal and replacement

  /** The node after its child in a slot has become another entry, or none. */
  function Lift<K, V, U>(node: Node<K, V>, s: Slot, child: Result<Option<Entry<K, V>>, UpdateError<U>>)
    : (r: Result<Option<Node<K, V>>, UpdateError<U>>)
    requires node.Valid() && node.bitmap[s]
  {
    match child
    case Err(e) => Err(e)
    case Ok(e) => Ok(node.ClearOrReplaceAt(s, e))
  }

  function UpdateRec<K(==), V, U>(node: Node<K, V>, h: Hash64, level: nat, k: K, f: Callback<V, U>,
                       ghost path: seq<Slot>, ghost hash: K -> Hash64)
    : (r: Result<Option<Node<K, V>>, UpdateError<U>>)
    requires NodeOk(node, path, hash) && level == |path| && h == hash(k)
    decreases node
  {
    var s := LevelIndex(h, level);
    if GetIndexSparse(node.bitmap, s) == NOT_FOUND then Err(KeyNotFound)
    else
      ChildOk(node, path, hash, s);
      Lift(node, s, UpdateEntry(node.items[GetIndexSparse(node.bitmap, s)], h, level + 1, k, f, path + [s], hash))
  }

  function UpdateEntry<K(==), V, U>(e: Entry<K, V>, h: Hash64, level: nat, k: K, f: Callback<V, U>,
                         ghost path: seq<Slot>, ghost hash: K -> Hash64)
    : (r: Result<Option<Entry<K, V>>, UpdateError<U>>)
    requires EntryOk(e, path, hash) && level == |path| && h == hash(k)
    decreases e
  {
    match e
    case LeafEntry(c) =>
      (match Update(c, h, k, f, hash)
       case Err(e) => Err(e)
       case Ok(None) => Ok(None)
       case Ok(Some(leaf)) => Ok(Some(LeafEntry(leaf))))
    case SubNode(sub) =>
      match UpdateRec(sub, h, level, k, f, path, hash)
      case Err(e) => Err(e)
      case Ok(None) => Ok(None)
      case Ok(Some(n)) => Ok(Some(SubNode(n)))
  }

  function RemoveRec<K(==), V>(node: Node<K, V>, h: Hash64, level: nat, k: K, ghost path: seq<Slot>,
                       ghost hash: K -> Hash64)
    : (r: Result<Option<Node<K, V>>, UpdateError<()>>)
    requires NodeOk(node, path, hash) && level == |path| && h == hash(k)
    decreases node
  {
    var s := LevelIndex(h, level);
    if GetIndexSparse(node.bitmap, s) == NOT_FOUND then Err(KeyNotFound)
    else
      ChildOk(node, path, hash, s);
      Lift(node, s, RemoveEntry(node.items[GetIndexSparse(node.bitmap, s)], h, level + 1, k, path + [s], hash))
  }

  function RemoveEntry<K(==), V>(e: Entry<K, V>, h: Hash64, level: nat, k: K, ghost path: seq<Slot>,
                         ghost hash: K -> Hash64)
    : (r: Result<Option<Entry<K, V>>, UpdateError<()>>)
    requires EntryOk(e, path, hash) && level == |path| && h == hash(k)
    decreases e
  {
    match e
    case LeafEntry(c) =>
      (match Remove(c, h, k, hash)
       case Err(e) => Err(e)
       case Ok(None) => Ok(None)
       case Ok(Some(leaf)) => Ok(Some(LeafEntry(leaf))))
    case SubNode(sub) =>
      match RemoveRec(sub, h, level, k, path, hash)
      case Err(e) => Err(e)
      case Ok(None) => Ok(None)
      case Ok(Some(n)) => Ok(Some(SubNode(n)))
  }

  function ReplaceRec<K(==), V>(node: Node<K, V>, h: Hash64, level: nat, k: K, v: V, ghost path: seq<Slot>,
                        ghost hash: K -> Hash64)
    : (r: Result<(Node<K, V>, V), UpdateError<()>>)
    requires NodeOk(node, path, hash) && level == |path| && h == hash(k)
    decreases node
  {
    var s := LevelIndex(h, level);
    if GetIndexSparse(node.bitmap, s) == NOT_FOUND then Err(KeyNotFound)
    else
      ChildOk(node, path, hash, s);
      LiftReplaced(node, s, ReplaceEntry(node.items[GetIndexSparse(node.bitmap, s)], h, level + 1, k, v, path + [s],
                                         hash))
  }

  function LiftReplaced<K, V>(node: Node<K, V>, s: Slot, child: Result<(Entry<K, V>, V), UpdateError<()>>)
    : (r: Result<(Node<K, V>, V), UpdateError<()>>)
    requires node.Valid() && node.bitmap[s]
  {
    match child
    case Err(e) => Err(e)
    case Ok((e, was)) => Ok((node.ReplaceAt(GetIndexSparse(node.bitmap, s), e), was))
  }

  function ReplaceEntry<K(==), V>(e: Entry<K, V>, h: Hash64, level: nat, k: K, v: V, ghost path: seq<Slot>,
                          ghost hash: K -> Hash64)
    : (r: Result<(Entry<K, V>, V), UpdateError<()>>)
    requires EntryOk(e, path, hash) && level == |path| && h == hash(k)
    decreases e
  {
    match e
    case LeafEntry(c) =>
      (match Replace(c, k, v)
       case Err(e) => Err(e)
       case Ok((leaf, was)) => Ok((LeafEntry(leaf), was)))
    case SubNode(sub) =>
      match ReplaceRec(sub, h, level, k, v, path, hash)
      case Err(e) => Err(e)
      case Ok((n, was)) => Ok((SubNode(n), was))
  }

  /** Emptying a slot that maps one key only takes out that key. */
  lemma {:induction false} ClearMeaning<K, V>(node: Node<K, V>, path: seq<Slot>, hash: K -> Hash64, s: Slot, k: K,
                                              v: V, q: K)
    requires NodeOk(node, path, hash) && node.bitmap[s] && InSlot(k, path, hash, s)
    requires EntryOk(node.items[GetIndexSparse(node.bitmap, s)], path + [s], hash)
    requires EntryGet(node.items[GetIndexSparse(node.bitmap, s)], path + [s], hash, q) ==
             if q == k then Some(v) else None
    ensures node.ClearAt(s).None? ==> NodeGet(node, path, hash, q) == if q == k then Some(v) else None
    ensures node.ClearAt(s).Some? ==> NodeOk(node.ClearAt(s).value, path, hash) && !IsZero(node.ClearAt(s).value.bitmap)
    ensures node.ClearAt(s).Some? ==>
              NodeGet(node.ClearAt(s).value, path, hash, q) == if q == k then None else NodeGet(node, path, hash, q)
  {
    ClearChanges(node, s);
    match node.ClearAt(s)
    case None =>
      assert node.bitmap[LevelIndex(hash(q), |path|)] <==> LevelIndex(hash(q), |path|) == s;
    case Some(y) =>
      ChangedOk(node, y, s, None, path, hash);
      ChangedGet(node, y, s, None, path, hash, q);
  }

  /** What an update has to do to a partial function, seen at one key q: `none` says that nothing is left. */
  predicate Outcome<K(==), V(==), U(==)>(k: K, f: Callback<V, U>, error: Option<UpdateError<U>>, none: bool, q: K,
                                         before: Option<V>, at: Option<V>, after: Option<V>)
  {
    match before
    case None => error == Some(KeyNotFound)
    case Some(v) =>
      match f(v)
      case Err(e) => error == Some(ValueCallbackError(e))
      case Ok(value) =>
        && error == None
        && (none ==> value == None && at == if q == k then Some(v) else None)
        && (!none ==> after == if q == k then value else at)
  }

  function ErrorOf<T, E>(r: Result<T, E>): (e: Option<E>) {
    match r case Ok(_) => None case Err(e) => Some(e)
  }

  ghost predicate NodeOutcome<K, V, U>(node: Node<K, V>, path: seq<Slot>, hash: K -> Hash64, k: K, f: Callback<V, U>,
                                       r: Result<Option<Node<K, V>>, UpdateError<U>>, q: K)
    requires NodeOk(node, path, hash)
  {
    var left := r.Ok? && r.value.Some?;
    && (left ==> NodeOk(r.value.value, path, hash) && !IsZero(r.value.value.bitmap))
    && Outcome(k, f, ErrorOf(r), r.Ok? && r.value.None?, q, NodeGet(node, path, hash, k), NodeGet(node, path, hash, q),
               if left then NodeGet(r.value.value, path, hash, q) else None)
  }

  ghost predicate EntryOutcome<K, V, U>(e: Entry<K, V>, path: seq<Slot>, hash: K -> Hash64, k: K, f: Callback<V, U>,
                                        r: Result<Option<Entry<K, V>>, UpdateError<U>>, q: K)
    requires EntryOk(e, path, hash)
  {
    var left := r.Ok? && r.value.Some?;
    && (left ==> EntryOk(r.value.value, path, hash))
    && Outcome(k, f, ErrorOf(r), r.Ok? && r.value.None?, q, EntryGet(e, path, hash, k), EntryGet(e, path, hash, q),
               if left then EntryGet(r.value.value, path, hash, q) else None)
  }

  /** From the child in the slot of the key to the node. */
  lemma {:induction false} LiftOutcome<K, V, U>(node: Node<K, V>, path: seq<Slot>, hash: K -> Hash64, s: Slot, k: K,
                                                f: Callback<V, U>,
                             r: Result<Option<Entry<K, V>>, UpdateError<U>>, q: K)
    requires NodeOk(node, path, hash) && node.bitmap[s] && InSlot(k, path, hash, s)
    requires EntryOk(node.items[GetIndexSparse(node.bitmap, s)], path + [s], hash)
    requires EntryOutcome(node.items[GetIndexSparse(node.bitmap, s)], path + [s], hash, k, f, r, q)
    ensures NodeOutcome(node, path, hash, k, f, Lift(node, s, r), q)
  {
    var child := node.items[GetIndexSparse(node.bitmap, s)];
    match r
    case Err(_) =>
    case Ok(None) =>
      ClearMeaning(node, path, hash, s, k, EntryGet(child, path + [s], hash, k).value, q);
    case Ok(Some(e)) =>
      var value := f(EntryGet(child, path + [s], hash, k).value).value;
      ReplaceMeaning(node, path, hash, s, e, k, value, q);
  }

  lemma {:induction false} LeafOutcome<K, V, U>(c: Leaf<K, V>, k: K, f: Callback<V, U>, path: seq<Slot>,
                                                hash: K -> Hash64, q: K)
    requires EntryOk(LeafEntry(c), path, hash)
    ensures EntryOutcome(LeafEntry(c), path, hash, k, f, UpdateEntry(LeafEntry(c), hash(k), |path|, k, f, path, hash),
                         q)
  {
    UpdateMeaning(c, k, f, hash, q);
  }

  /** An update fails exactly on a missing key or a failing callback, and changes that key only. */
  lemma {:induction false} UpdateNodeMeaning<K, V, U>(node: Node<K, V>, k: K, f: Callback<V, U>, path: seq<Slot>,
                                                      hash: K -> Hash64, q: K)
    requires NodeOk(node, path, hash)
    ensures NodeOutcome(node, path, hash, k, f, UpdateRec(node, hash(k), |path|, k, f, path, hash), q)
    decreases node
  {
    var h := hash(k);
    var s := LevelIndex(h, |path|);
    if node.bitmap[s] {
      ChildOk(node, path, hash, s);
      var child := node.items[GetIndexSparse(node.bitmap, s)];
      UpdateEntryMeaning(child, k, f, path + [s], hash, q);
      LiftOutcome(node, path, hash, s, k, f, UpdateEntry(child, h, |path| + 1, k, f, path + [s], hash), q);
    }
  }

  lemma {:induction false} UpdateEntryMeaning<K, V, U>(e: Entry<K, V>, k: K, f: Callback<V, U>, path: seq<Slot>,
                                                       hash: K -> Hash64, q: K)
    requires EntryOk(e, path, hash)
    ensures EntryOutcome(e, path, hash, k, f, UpdateEntry(e, hash(k), |path|, k, f, path, hash), q)
    decreases e
  {
    match e
    case LeafEntry(c) => LeafOutcome(c, k, f, path, hash, q);
    case SubNode(sub) => UpdateNodeMeaning(sub, k, f, path, hash, q);
  }

  /** Removing is updating with nothing. */
  lemma {:induction false} RemoveRecIsUpdate<K, V>(node: Node<K, V>, k: K, path: seq<Slot>, hash: K -> Hash64,
                                                   f: Callback<V, ()>)
    requires NodeOk(node, path, hash) && forall v :: f(v) == Ok(None)
    ensures RemoveRec(node, hash(k), |path|, k, path, hash) == UpdateRec(node, hash(k), |path|, k, f, path, hash)
    decreases node
  {
    var s := LevelIndex(hash(k), |path|);
    if node.bitmap[s] {
      ChildOk(node, path, hash, s);
      var e := node.items[GetIndexSparse(node.bitmap, s)];
      RemoveEntryIsUpdate(e, k, path + [s], hash, f);
      UpdateUnfold(node, k, path, hash, f, s, e);
      RemoveUnfold(node, k, path, hash, s, e);
    }
  }

  lemma {:induction false} UpdateUnfold<K, V, U>(node: Node<K, V>, k: K, path: seq<Slot>, hash: K -> Hash64,
                                                 f: Callback<V, U>, s: Slot, e: Entry<K, V>)
    requires NodeOk(node, path, hash) && s == LevelIndex(hash(k), |path|) && node.bitmap[s]
    requires e == node.items[GetIndexSparse(node.bitmap, s)] && EntryOk(e, path + [s], hash)
    ensures UpdateRec(node, hash(k), |path|, k, f, path, hash) ==
            Lift(node, s, UpdateEntry(e, hash(k), |path| + 1, k, f, path + [s], hash))
  {
  }

  lemma {:induction false} RemoveUnfold<K, V>(node: Node<K, V>, k: K, path: seq<Slot>, hash: K -> Hash64, s: Slot,
                                              e: Entry<K, V>)
    requires NodeOk(node, path, hash) && s == LevelIndex(hash(k), |path|) && node.bitmap[s]
    requires e == node.items[GetIndexSparse(node.bitmap, s)] && EntryOk(e, path + [s], hash)
    ensures RemoveRec(node, hash(k), |path|, k, path, hash) ==
            Lift(node, s, RemoveEntry(e, hash(k), |path| + 1, k, path + [s], hash))
  {
  }

  lemma {:induction false} ReplaceUnfold<K, V>(node: Node<K, V>, k: K, v: V, path: seq<Slot>, hash: K -> Hash64,
                                               s: Slot, e: Entry<K, V>)
    requires NodeOk(node, path, hash) && s == LevelIndex(hash(k), |path|) && node.bitmap[s]
    requires e == node.items[GetIndexSparse(node.bitmap, s)] && EntryOk(e, path + [s], hash)
    ensures ReplaceRec(node, hash(k), |path|, k, v, path, hash) ==
            LiftReplaced(node, s, ReplaceEntry(e, hash(k), |path| + 1, k, v, path + [s], hash))
  {
  }

  lemma {:induction false} RemoveEntryIsUpdate<K, V>(e: Entry<K, V>, k: K, path: seq<Slot>, hash: K -> Hash64,
                                                     f: Callback<V, ()>)
    requires EntryOk(e, path, hash) && forall v :: f(v) == Ok(None)
    ensures RemoveEntry(e, hash(k), |path|, k, path, hash) == UpdateEntry(e, hash(k), |path|, k, f, path, hash)
    decreases e
  {
    match e
    case LeafEntry(c) => RemoveIsUpdate(c, k, hash, f);
    case SubNode(sub) => RemoveRecIsUpdate(sub, k, path, hash, f);
  }

  /** A replacement against the update with the new value: the same, and the old value besides. */
  predicate SameReplacement<T(==), V(==)>(was: Option<V>, replaced: Result<(T, V), UpdateError<()>>,
                              updated: Result<Option<T>, UpdateError<()>>) {
    match was
    case None => replaced == Err(KeyNotFound) && updated == Err(KeyNotFound)
    case Some(u) => replaced.Ok? && replaced.value.1 == u && updated == Ok(Some(replaced.value.0))
  }

  lemma {:induction false} ReplaceRecIsUpdate<K, V>(node: Node<K, V>, k: K, v: V, path: seq<Slot>, hash: K -> Hash64,
                                                    f: Callback<V, ()>)
    requires NodeOk(node, path, hash) && forall u :: f(u) == Ok(Some(v))
    ensures SameReplacement(NodeGet(node, path, hash, k), ReplaceRec(node, hash(k), |path|, k, v, path, hash),
                            UpdateRec(node, hash(k), |path|, k, f, path, hash))
    decreases node
  {
    var s := LevelIndex(hash(k), |path|);
    if node.bitmap[s] {
      ChildOk(node, path, hash, s);
      var e := node.items[GetIndexSparse(node.bitmap, s)];
      ReplaceEntryIsUpdate(e, k, v, path + [s], hash, f);
      UpdateUnfold(node, k, path, hash, f, s, e);
      ReplaceUnfold(node, k, v, path, hash, s, e);
    }
  }

  lemma {:induction false} ReplaceEntryIsUpdate<K, V>(e: Entry<K, V>, k: K, v: V, path: seq<Slot>, hash: K -> Hash64,
                                                      f: Callback<V, ()>)
    requires EntryOk(e, path, hash) && forall u :: f(u) == Ok(Some(v))
    ensures SameReplacement(EntryGet(e, path, hash, k), ReplaceEntry(e, hash(k), |path|, k, v, path, hash),
                            UpdateEntry(e, hash(k), |path|, k, f, path, hash))
    decreases e
  {
    match e
    case LeafEntry(c) => ReplaceIsUpdate(c, k, v, hash, f);
    case SubNode(sub) => ReplaceRecIsUpdate(sub, k, v, path, hash, f);
  }

  // ----- the trie as a map

  /** The trie maps the keys of m as m does, and no other key. */
  ghost predicate Represents<K(!new), V>(root: Node<K, V>, m: map<K, V>, hash: K -> Hash64) {
    NodeOk(root, [], hash) && forall k :: NodeGet(root, [], hash, k) == if k in m then Some(m[k]) else None
  }

  function RootOr<K, V>(n: Option<Node<K, V>>): (r: Node<K, V>) {
    match n case None => Empty() case Some(root) => root
  }

  lemma {:induction false} NewRepresents<K(!new), V>(hash: K -> Hash64)
    ensures Represents<K, V>(Empty(), map[], hash)
  {
    forall k ensures NodeOk<K, V>(Empty(), [], hash) && NodeGet<K, V>(Empty(), [], hash, k) == None {
      EmptyOk<K, V>([], hash, k);
    }
    EmptyValid<Entry<K, V>>(0);
  }

  function Insert<K(==), V>(root: Node<K, V>, k: K, v: V, hash: K -> Hash64): (r: Result<Node<K, V>, InsertError>)
    requires NodeOk(root, [], hash)
  {
    InsertRec(root, hash(k), 0, KV(k, v), [], hash)
  }

  lemma {:induction false} InsertRepresents<K(!new), V>(root: Node<K, V>, m: map<K, V>, k: K, v: V, hash: K -> Hash64)
    requires Represents(root, m, hash)
    ensures Insert(root, k, v, hash).Err? <==> k in m
    ensures k !in m ==> Represents(Insert(root, k, v, hash).value, m[k := v], hash)
  {
    InsertMeaning(root, KV(k, v), [], hash, k);
    if k !in m {
      var r := Insert(root, k, v, hash).value;
      forall q ensures NodeGet(r, [], hash, q) == if q in m[k := v] then Some(m[k := v][q]) else None {
        InsertMeaning(root, KV(k, v), [], hash, q);
      }
    }
  }

  function UpdateKey<K(==), V, U>(root: Node<K, V>, k: K, f: Callback<V, U>,
                       hash: K -> Hash64): (r: Result<Node<K, V>, UpdateError<U>>)
    requires NodeOk(root, [], hash)
  {
    match UpdateRec(root, hash(k), 0, k, f, [], hash)
    case Err(e) => Err(e)
    case Ok(n) => Ok(RootOr(n))
  }

  function RemoveKey<K(==), V>(root: Node<K, V>, k: K, hash: K -> Hash64): (r: Result<Node<K, V>, UpdateError<()>>)
    requires NodeOk(root, [], hash)
  {
    match RemoveRec(root, hash(k), 0, k, [], hash)
    case Err(e) => Err(e)
    case Ok(n) => Ok(RootOr(n))
  }

  function ReplaceKey<K(==), V>(root: Node<K, V>, k: K, v: V,
                        hash: K -> Hash64): (r: Result<(Node<K, V>, V), UpdateError<()>>)
    requires NodeOk(root, [], hash)
  {
    ReplaceRec(root, hash(k), 0, k, v, [], hash)
  }

  /** The map after a key got a value, or lost it. */
  function With<K, V>(m: map<K, V>, k: K, value: Option<V>): (r: map<K, V>) {
    match value case None => m - {k} case Some(v) => m[k := v]
  }

  lemma {:induction false} UpdateKeyRepresents<K(!new), V, U>(root: Node<K, V>, m: map<K, V>, k: K, f: Callback<V, U>,
                                                 hash: K -> Hash64)
    requires Represents(root, m, hash)
    ensures var r := UpdateKey(root, k, f, hash);
            if k !in m then r == Err(KeyNotFound)
            else if f(m[k]).Err? then r == Err(ValueCallbackError(f(m[k]).error))
            else r.Ok? && Represents(r.value, With(m, k, f(m[k]).value), hash)
  {
    UpdateNodeMeaning(root, k, f, [], hash, k);
    if k in m && f(m[k]).Ok? {
      var n := UpdateRec(root, hash(k), 0, k, f, [], hash).value;
      UpdatedRoot(root, m, k, f, n, hash);
    }
  }

  lemma {:induction false} UpdatedAt<K, V, U>(root: Node<K, V>, k: K, f: Callback<V, U>, n: Option<Node<K, V>>,
                                              hash: K -> Hash64, v: V, q: K)
    requires NodeOk(root, [], hash) && NodeGet(root, [], hash, k) == Some(v) && f(v).Ok?
    requires UpdateRec(root, hash(k), 0, k, f, [], hash) == Ok(n)
    ensures NodeOk(RootOr(n), [], hash)
    ensures NodeGet(RootOr(n), [], hash, q) == if q == k then f(v).value else NodeGet(root, [], hash, q)
  {
    UpdateNodeMeaning(root, k, f, [], hash, q);
    EmptyOk<K, V>([], hash, q);
  }

  lemma {:induction false} UpdatedRoot<K(!new), V, U>(root: Node<K, V>, m: map<K, V>, k: K, f: Callback<V, U>,
                                         n: Option<Node<K, V>>, hash: K -> Hash64)
    requires Represents(root, m, hash) && k in m && f(m[k]).Ok?
    requires UpdateRec(root, hash(k), 0, k, f, [], hash) == Ok(n)
    ensures Represents(RootOr(n), With(m, k, f(m[k]).value), hash)
  {
    var after := With(m, k, f(m[k]).value);
    UpdatedAt(root, k, f, n, hash, m[k], k);
    forall q ensures NodeGet(RootOr(n), [], hash, q) == if q in after then Some(after[q]) else None {
      UpdatedAt(root, k, f, n, hash, m[k], q);
    }
  }

  lemma {:induction false} RemoveKeyRepresents<K(!new), V>(root: Node<K, V>, m: map<K, V>, k: K, hash: K -> Hash64)
    requires Represents(root, m, hash)
    ensures if k !in m then RemoveKey(root, k, hash) == Err(KeyNotFound)
            else RemoveKey(root, k, hash).Ok? && Represents(RemoveKey(root, k, hash).value, m - {k}, hash)
  {
    var f: Callback<V, ()> := (v: V) => Ok(None);
    RemoveRecIsUpdate(root, k, [], hash, f);
    UpdateKeyRepresents(root, m, k, f, hash);
  }

  lemma {:induction false} ReplaceKeyRepresents<K(!new), V>(root: Node<K, V>, m: map<K, V>, k: K, v: V,
                                                  hash: K -> Hash64)
    requires Represents(root, m, hash)
    ensures if k !in m then ReplaceKey(root, k, v, hash) == Err(KeyNotFound)
            else
              && ReplaceKey(root, k, v, hash).Ok? && ReplaceKey(root, k, v, hash).value.1 == m[k]
              && Represents(ReplaceKey(root, k, v, hash).value.0, m[k := v], hash)
  {
    var f: Callback<V, ()> := (u: V) => Ok(Some(v));
    ReplaceRecIsUpdate(root, k, v, [], hash, f);
    UpdateKeyRepresents(root, m, k, f, hash);
  }

  /** The first pair of each key. */
  ghost function FirstPairs<K, V>(kvs: seq<KV<K, V>>): (m: map<K, V>) {
    if kvs == [] then map[]
    else
      var m := FirstPairs(kvs[..|kvs| - 1]);
      var last := kvs[|kvs| - 1];
      if last.key in m then m else m[last.key := last.value]
  }

  /** A trie built from pairs keeps the first pair of each key; failed insertions are ignored. */
  method FromIter<K(==, !new), V>(kvs: seq<KV<K, V>>, hash: K -> Hash64) returns (root: Node<K, V>)
    ensures Represents(root, FirstPairs(kvs), hash)
  {
    root := Empty();
    NewRepresents<K, V>(hash);
    for i := 0 to |kvs|
      invariant Represents(root, FirstPairs(kvs[..i]), hash)
    {
      assert kvs[..i + 1][..i] == kvs[..i];
      InsertRepresents(root, FirstPairs(kvs[..i]), kvs[i].key, kvs[i].value, hash);
      match Insert(root, kvs[i].key, kvs[i].value, hash) {
        case Err(_) =>
        case Ok(n) => root := n;
      }
    }
    assert kvs[..|kvs|] == kvs;
  }

  // ----- the number of keys

  function EntrySize<K, V>(e: Entry<K, V>): (n: nat)
    decreases e, 0
  {
    match e
    case LeafEntry(c) => |c.Items()|
    case SubNode(sub) => ItemsSize(sub, |sub.items|)
  }

  /** The sizes of the first n children together. */
  function ItemsSize<K, V>(node: Node<K, V>, n: nat): (size: nat)
    requires n <= |node.items|
    decreases node, n
  {
    if n == 0 then 0 else ItemsSize(node, n - 1) + EntrySize(node.items[n - 1])
  }

  method SizeRec<K, V>(node: Node<K, V>) returns (sum: nat)
    ensures sum == ItemsSize(node, |node.items|)
    decreases node
  {
    sum := 0;
    for i := 0 to |node.items|
      invariant sum == ItemsSize(node, i)
    {
      match node.items[i] {
        case LeafEntry(c) =>
          sum := sum + |c.Items()|;
        case SubNode(sub) =>
          var size := SizeRec(sub);
          sum := sum + size;
      }
    }
  }

  ghost function LeafKeys<K, V>(items: seq<KV<K, V>>, n: nat): (s: set<K>)
    requires n <= |items|
  {
    if n == 0 then {} else LeafKeys(items, n - 1) + {items[n - 1].key}
  }

  lemma {:induction false} LeafKeysMeaning<K, V>(items: seq<KV<K, V>>, n: nat, k: K)
    requires n <= |items|
    ensures k in LeafKeys(items, n) <==> exists i :: 0 <= i < n && items[i].key == k
  {
    if n > 0 {
      LeafKeysMeaning(items, n - 1, k);
    }
  }

  lemma {:induction false} LeafKeysSize<K, V>(items: seq<KV<K, V>>, n: nat)
    requires n <= |items| && DistinctKeys(items)
    ensures |LeafKeys(items, n)| == n
  {
    if n > 0 {
      LeafKeysSize(items, n - 1);
      LeafKeysMeaning(items, n - 1, items[n - 1].key);
    }
  }

  ghost function EntryKeys<K, V>(e: Entry<K, V>, path: seq<Slot>, hash: K -> Hash64): (s: set<K>)
    requires EntryOk(e, path, hash)
    decreases e, 0
  {
    match e
    case LeafEntry(c) => LeafKeys(c.Items(), |c.Items()|)
    case SubNode(sub) => SlotKeys(sub, path, hash, 32)
  }

  /** The keys in the first n slots. */
  ghost function SlotKeys<K, V>(node: Node<K, V>, path: seq<Slot>, hash: K -> Hash64, n: nat): (s: set<K>)
    requires NodeOk(node, path, hash) && n <= 32
    decreases node, n
  {
    if n == 0 then {}
    else if !node.bitmap[n - 1] then SlotKeys(node, path, hash, n - 1)
    else
      SlotKeys(node, path, hash, n - 1) +
      EntryKeys(node.items[GetIndexSparse(node.bitmap, n - 1)], path + [n - 1], hash)
  }

  /** The keys below an entry are those it maps, and their hashes follow its path. */
  lemma {:induction false} EntryKeysMeaning<K, V>(e: Entry<K, V>, path: seq<Slot>, hash: K -> Hash64, k: K)
    requires EntryOk(e, path, hash)
    ensures k in EntryKeys(e, path, hash) <==> EntryGet(e, path, hash, k).Some?
    ensures k in EntryKeys(e, path, hash) ==> Matches(hash(k), path)
    decreases e, 0
  {
    match e
    case LeafEntry(c) =>
      LeafKeysMeaning(c.Items(), |c.Items()|, k);
    case SubNode(sub) =>
      SlotKeysMeaning(sub, path, hash, 32, k);
      if sub.bitmap[LevelIndex(hash(k), |path|)] {
        var s := LevelIndex(hash(k), |path|);
        ChildOk(sub, path, hash, s);
        EntryKeysMeaning(sub.items[GetIndexSparse(sub.bitmap, s)], path + [s], hash, k);
        if Matches(hash(k), path + [s]) {
          MatchesLast(hash(k), path, s);
        }
      }
  }

  /** A key is found in the slot its hash chooses, and in no other. */
  lemma {:induction false} ChildKeys<K, V>(node: Node<K, V>, path: seq<Slot>, hash: K -> Hash64, s: Slot, k: K)
    requires NodeOk(node, path, hash) && node.bitmap[s]
    requires EntryOk(node.items[GetIndexSparse(node.bitmap, s)], path + [s], hash)
    ensures k in EntryKeys(node.items[GetIndexSparse(node.bitmap, s)], path + [s], hash) <==>
            InSlot(k, path, hash, s) && NodeGet(node, path, hash, k).Some?
    decreases node, 0
  {
    EntryKeysMeaning(node.items[GetIndexSparse(node.bitmap, s)], path + [s], hash, k);
    if Matches(hash(k), path + [s]) {
      MatchesLast(hash(k), path, s);
    }
  }

  /** If a key can only be in slot t, then it is there or nowhere. */
  lemma {:induction false} SlotKeysAre<K, V>(node: Node<K, V>, path: seq<Slot>, hash: K -> Hash64, n: nat, k: K,
                                             t: Slot, there: bool)
    requires NodeOk(node, path, hash) && n <= 32 && (there ==> node.bitmap[t])
    requires forall s: Slot :: node.bitmap[s] ==>
               (k in EntryKeys(node.items[GetIndexSparse(node.bitmap, s)], path + [s], hash) <==> s == t && there)
    ensures k in SlotKeys(node, path, hash, n) <==> t < n && there
    decreases n
  {
    if n > 0 {
      SlotKeysAre(node, path, hash, n - 1, k, t, there);
      assert node.bitmap[n - 1] ==>
          (k in EntryKeys(node.items[GetIndexSparse(node.bitmap, n - 1)], path + [n - 1], hash) <==>
             n - 1 == t && there);
    }
  }

  lemma {:induction false} SlotKeysMeaning<K, V>(node: Node<K, V>, path: seq<Slot>, hash: K -> Hash64, n: nat, k: K)
    requires NodeOk(node, path, hash) && n <= 32
    ensures k in SlotKeys(node, path, hash, n) <==>
            LevelIndex(hash(k), |path|) < n && NodeGet(node, path, hash, k).Some?
    decreases node, 1
  {
    var t, there := LevelIndex(hash(k), |path|), NodeGet(node, path, hash, k).Some?;
    forall s: Slot | node.bitmap[s]
      ensures k in EntryKeys(node.items[GetIndexSparse(node.bitmap, s)], path + [s], hash) <==> s == t && there
    {
      ChildOk(node, path, hash, s);
      ChildKeys(node, path, hash, s, k);
    }
    SlotKeysAre(node, path, hash, n, k, t, there);
  }

  lemma {:induction false} EntryKeysSize<K, V>(e: Entry<K, V>, path: seq<Slot>, hash: K -> Hash64)
    requires EntryOk(e, path, hash)
    ensures |EntryKeys(e, path, hash)| == EntrySize(e)
    decreases e, 0
  {
    match e
    case LeafEntry(c) => LeafKeysSize(c.Items(), |c.Items()|);
    case SubNode(sub) => SlotKeysSize(sub, path, hash, 32);
  }

  lemma {:induction false} SlotKeysSize<K, V>(node: Node<K, V>, path: seq<Slot>, hash: K -> Hash64, n: nat)
    requires NodeOk(node, path, hash) && n <= 32
    ensures Ones(node.bitmap, n) <= |node.items|
    ensures |SlotKeys(node, path, hash, n)| == ItemsSize(node, Ones(node.bitmap, n))
    decreases node, n
  {
    OnesMonotone(node.bitmap, n, 32);
    if n > 0 {
      SlotKeysSize(node, path, hash, n - 1);
      if node.bitmap[n - 1] {
        ChildOk(node, path, hash, n - 1);
        EntryKeysSize(node.items[GetIndexSparse(node.bitmap, n - 1)], path + [n - 1], hash);
        SlotsDisjoint(node, path, hash, n);
      }
    }
  }

  lemma {:induction false} SlotsDisjoint<K, V>(node: Node<K, V>, path: seq<Slot>, hash: K -> Hash64, n: nat)
    requires NodeOk(node, path, hash) && 0 < n <= 32 && node.bitmap[n - 1]
    requires EntryOk(node.items[GetIndexSparse(node.bitmap, n - 1)], path + [n - 1], hash)
    ensures SlotKeys(node, path, hash, n - 1) !!
            EntryKeys(node.items[GetIndexSparse(node.bitmap, n - 1)], path + [n - 1], hash)
  {
    var before := SlotKeys(node, path, hash, n - 1);
    var here := EntryKeys(node.items[GetIndexSparse(node.bitmap, n - 1)], path + [n - 1], hash);
    forall k | k in here ensures k !in before {
      ChildKeys(node, path, hash, n - 1, k);
      SlotKeysMeaning(node, path, hash, n - 1, k);
    }
  }

  /** The size of a trie is the number of keys it maps. */
  lemma {:induction false} SizeRepresents<K(!new), V>(root: Node<K, V>, m: map<K, V>, hash: K -> Hash64)
    requires Represents(root, m, hash)
    ensures ItemsSize(root, |root.items|) == |m|
  {
    SlotKeysSize(root, [], hash, 32);
    forall k ensures k in SlotKeys(root, [], hash, 32) <==> k in m {
      SlotKeysMeaning(root, [], hash, 32, k);
    }
    assert SlotKeys(root, [], hash, 32) == m.Keys;
  }
}
