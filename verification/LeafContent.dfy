/** The key-value pairs of one leaf: one, or several whose keys have the same hash (imhamt/src/content.rs). */
module LeafContent {
  import opened Wrappers
  import opened SparseArray
  import opened HashLevels

  datatype KV<K, V> = KV(key: K, value: V)

  datatype SmallVec<K, V> = One(kv: KV<K, V>) | Many(kvs: seq<KV<K, V>>)

  datatype Leaf<K, V> = Leaf(hashed: Hash64, content: SmallVec<K, V>) {
    function Items(): (s: seq<KV<K, V>>) {
      match content case One(kv) => [kv] case Many(kvs) => kvs
    }
  }

  datatype InsertError = EntryExists

  datatype UpdateError<+U> = KeyNotFound | ValueCallbackError(e: U)

  /** What an update makes of a value: an error, nothing, or a new value. */
  type Callback<!V, !U> = V -> Result<Option<V>, U>

  // ----- searching

  /** The position of a key. */
  function Find<K(==), V>(items: seq<KV<K, V>>, k: K): (r: Option<nat>)
    ensures r.Some? ==> r.value < |items| && items[r.value].key == k
    ensures r.None? ==> forall i :: 0 <= i < |items| ==> items[i].key != k
  {
    if items == [] then None
    else if items[0].key == k then Some(0)
    else
      match Find(items[1..], k)
      case None => assert forall i :: 0 < i < |items| ==> items[i] == items[1..][i - 1]; None
      case Some(i) => Some(i + 1)
  }

  function Get<K(==), V>(items: seq<KV<K, V>>, k: K): (r: Option<V>) {
    match Find(items, k) case None => None case Some(i) => Some(items[i].value)
  }

  ghost predicate DistinctKeys<K, V>(items: seq<KV<K, V>>) {
    forall i, j :: 0 <= i < j < |items| ==> items[i].key != items[j].key
  }

  lemma {:induction false} GetAt<K, V>(items: seq<KV<K, V>>, i: nat)
    requires DistinctKeys(items) && i < |items|
    ensures Find(items, items[i].key) == Some(i) && Get(items, items[i].key) == Some(items[i].value)
  {
  }

  lemma {:induction false} GetNone<K, V>(items: seq<KV<K, V>>, k: K)
    requires forall i :: 0 <= i < |items| ==> items[i].key != k
    ensures Get(items, k) == None
  {
  }

  /** Two lists of distinct keys that hold the same pair for a key. */
  lemma {:induction false} GetSame<K, V>(a: seq<KV<K, V>>, b: seq<KV<K, V>>, i: nat, j: nat)
    requires DistinctKeys(a) && DistinctKeys(b) && i < |a| && j < |b| && a[i] == b[j]
    ensures Get(a, a[i].key) == Get(b, a[i].key)
  {
    GetAt(a, i);
    GetAt(b, j);
  }

  // ----- the operations

  function Single<K, V>(h: Hash64, kv: KV<K, V>): (c: Leaf<K, V>) {
    Leaf(h, One(kv))
  }

  function Add<K(==), V>(c: Leaf<K, V>, kv: KV<K, V>): (r: Result<Leaf<K, V>, InsertError>) {
    if Find(c.Items(), kv.key).Some? then Err(EntryExists) else Ok(Leaf(c.hashed, Many(c.Items() + [kv])))
  }

  function FindIn<K(==), V>(c: Leaf<K, V>, h: Hash64, k: K): (r: Option<V>) {
    if c.hashed == h then Get(c.Items(), k) else None
  }

  /** The leaf without the pair at a position. */
  function Without<K, V>(c: Leaf<K, V>, kvs: seq<KV<K, V>>, pos: nat): (r: Leaf<K, V>)
    requires pos < |kvs| && |kvs| > 1
  {
    if |kvs| == 2 then Leaf(c.hashed, One(if pos == 0 then kvs[1] else kvs[0]))
    else Leaf(c.hashed, Many(RemoveAt(kvs, pos)))
  }

  ghost predicate LeafOk<K, V>(c: Leaf<K, V>, hash: K -> Hash64) {
    && DistinctKeys(c.Items())
    && (forall i :: 0 <= i < |c.Items()| ==> hash(c.Items()[i].key) == c.hashed)
    && (c.content.Many? ==> |c.content.kvs| > 1)
  }

  function Update<K(==), V, U>(c: Leaf<K, V>, h: Hash64, k: K, f: Callback<V, U>, ghost hash: K -> Hash64)
    : (r: Result<Option<Leaf<K, V>>, UpdateError<U>>)
    requires LeafOk(c, hash)
  {
    if c.hashed != h then Err(KeyNotFound)
    else
      match c.content
      case One(kv) =>
        if kv.key != k then Err(KeyNotFound)
        else (
          match f(kv.value)
          case Err(e) => Err(ValueCallbackError(e))
          case Ok(None) => Ok(None)
          case Ok(Some(v)) => Ok(Some(Leaf(c.hashed, One(KV(k, v))))))
      case Many(kvs) =>
        match Find(kvs, k)
        case None => Err(KeyNotFound)
        case Some(pos) =>
          match f(kvs[pos].value)
          case Err(e) => Err(ValueCallbackError(e))
          case Ok(None) => Ok(Some(Without(c, kvs, pos)))
          case Ok(Some(v)) => Ok(Some(Leaf(c.hashed, Many(kvs[pos := KV(k, v)]))))
  }

  function Remove<K(==), V>(c: Leaf<K, V>, h: Hash64, k: K, ghost hash: K -> Hash64)
    : (r: Result<Option<Leaf<K, V>>, UpdateError<()>>)
    requires LeafOk(c, hash)
  {
    if c.hashed != h then Err(KeyNotFound)
    else
      match c.content
      case One(kv) => if kv.key != k then Err(KeyNotFound) else Ok(None)
      case Many(kvs) =>
        match Find(kvs, k)
        case None => Err(KeyNotFound)
        case Some(pos) => Ok(Some(Without(c, kvs, pos)))
  }

  function Replace<K(==), V>(c: Leaf<K, V>, k: K, v: V): (r: Result<(Leaf<K, V>, V), UpdateError<()>>) {
    match c.content
    case One(kv) => if kv.key != k then Err(KeyNotFound) else Ok((Leaf(c.hashed, One(KV(kv.key, v))), kv.value))
    case Many(kvs) =>
      match Find(kvs, k)
      case None => Err(KeyNotFound)
      case Some(pos) => Ok((Leaf(c.hashed, Many(kvs[pos := KV(k, v)])), kvs[pos].value))
  }

  // ----- what they mean

  lemma {:induction false} SingleMeaning<K, V>(h: Hash64, kv: KV<K, V>, hash: K -> Hash64, q: K)
    requires hash(kv.key) == h
    ensures LeafOk(Single(h, kv), hash)
    ensures FindIn(Single(h, kv), hash(q), q) == if q == kv.key then Some(kv.value) else None
  {
  }

  /** Adding fails exactly on a key that is there, and otherwise changes that key only. */
  lemma {:induction false} AddMeaning<K, V>(c: Leaf<K, V>, kv: KV<K, V>, hash: K -> Hash64, q: K)
    requires LeafOk(c, hash) && hash(kv.key) == c.hashed
    ensures Add(c, kv).Err? <==> FindIn(c, hash(kv.key), kv.key).Some?
    ensures Add(c, kv).Ok? ==> LeafOk(Add(c, kv).value, hash) && Add(c, kv).value.hashed == c.hashed
    ensures Add(c, kv).Ok? ==>
              FindIn(Add(c, kv).value, hash(q), q) == if q == kv.key then Some(kv.value) else FindIn(c, hash(q), q)
  {
    if Add(c, kv).Ok? {
      var a, b := c.Items(), c.Items() + [kv];
      assert DistinctKeys(b);
      if q == kv.key {
        assert b[|a|] == kv;
        GetAt(b, |a|);
      } else {
        match Find(a, q)
        case Some(i) => GetSame(a, b, i, i);
        case None => GetNone(b, q);
      }
    }
  }

  lemma {:induction false} WithoutMeaning<K, V>(c: Leaf<K, V>, pos: nat, hash: K -> Hash64, q: K)
    requires LeafOk(c, hash) && c.content.Many? && pos < |c.content.kvs|
    ensures var r := Without(c, c.content.kvs, pos);
            && LeafOk(r, hash) && r.hashed == c.hashed
            && Get(r.Items(), q) == if q == c.content.kvs[pos].key then None else Get(c.Items(), q)
  {
    var a := c.content.kvs;
    var b := RemoveAt(a, pos);
    var r := Without(c, a, pos);
    assert r.Items() == b;
    assert forall i :: 0 <= i < |b| ==> b[i] == a[if i < pos then i else i + 1];
    match Find(a, q)
    case None => GetNone(b, q);
    case Some(i) =>
      if i == pos {
        GetNone(b, q);
      } else {
        GetSame(a, b, i, if i < pos then i else i - 1);
      }
  }

  lemma {:induction false} SetMeaning<K, V>(a: seq<KV<K, V>>, pos: nat, v: V, q: K)
    requires DistinctKeys(a) && pos < |a|
    ensures var b := a[pos := KV(a[pos].key, v)];
            && DistinctKeys(b)
            && Get(b, q) == if q == a[pos].key then Some(v) else Get(a, q)
  {
    var b := a[pos := KV(a[pos].key, v)];
    assert forall i :: 0 <= i < |b| ==> b[i].key == a[i].key;
    assert DistinctKeys(b);
    match Find(a, q)
    case None => GetNone(b, q);
    case Some(i) =>
      if i == pos {
        GetAt(b, pos);
      } else {
        GetSame(a, b, i, i);
      }
  }

  /** An update calls back exactly on a key that is there, and leaves every other key as it was. */
  lemma {:induction false} UpdateMeaning<K, V, U>(c: Leaf<K, V>, k: K, f: Callback<V, U>, hash: K -> Hash64, q: K)
    requires LeafOk(c, hash)
    ensures var r := Update(c, hash(k), k, f, hash);
            match FindIn(c, hash(k), k)
            case None => r == Err(KeyNotFound)
            case Some(v) =>
              match f(v)
              case Err(e) => r == Err(ValueCallbackError(e))
              case Ok(value) =>
                && r.Ok?
                && (r.value == None ==> FindIn(c, hash(q), q) == (if q == k then Some(v) else None) && value == None)
                && (r.value.Some? ==> LeafOk(r.value.value, hash) && r.value.value.hashed == c.hashed)
                && (r.value.Some? ==>
                      FindIn(r.value.value, hash(q), q) == if q == k then value else FindIn(c, hash(q), q))
  {
    if c.hashed == hash(k) && c.content.Many? {
      match Find(c.content.kvs, k)
      case None =>
      case Some(pos) =>
        WithoutMeaning(c, pos, hash, q);
        match f(c.content.kvs[pos].value)
        case Ok(Some(v)) => SetMeaning(c.content.kvs, pos, v, q);
        case _ =>
    }
  }

  /** Removing is updating with nothing, and replacing is updating with the new value. */
  lemma {:induction false} RemoveIsUpdate<K, V>(c: Leaf<K, V>, k: K, hash: K -> Hash64, f: Callback<V, ()>)
    requires LeafOk(c, hash) && forall v :: f(v) == Ok(None)
    ensures Remove(c, hash(k), k, hash) == Update(c, hash(k), k, f, hash)
  {
  }

  lemma {:induction false} ReplaceIsUpdate<K, V>(c: Leaf<K, V>, k: K, v: V, hash: K -> Hash64, f: Callback<V, ()>)
    requires LeafOk(c, hash) && forall u :: f(u) == Ok(Some(v))
    ensures match FindIn(c, hash(k), k)
            case None => Replace(c, k, v) == Err(KeyNotFound) && Update(c, hash(k), k, f, hash) == Err(KeyNotFound)
            case Some(u) => Replace(c, k, v).Ok? && Replace(c, k, v).value.1 == u
                            && Update(c, hash(k), k, f, hash) == Ok(Some(Replace(c, k, v).value.0))
  {
    match Find(c.Items(), k)
    case None =>
    case Some(i) => assert hash(c.Items()[i].key) == c.hashed;
  }
}
