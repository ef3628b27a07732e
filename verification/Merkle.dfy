/** Merkle trees (cardano/src/merkle.rs). The hash and the serialisation of the items are parameters. */
module Merkle {
  import opened Bytes
  import opened Powers

  type Hash = s: seq<Byte> | |s| == 32 witness seq(32, _ => 0)

  type Hasher = seq<Byte> -> Hash

  datatype Node = Branch(hash: Hash, left: Node, right: Node) | Leaf(hash: Hash)

  datatype Tree = Empty | Tree(size: nat, root: Node)

  /** The smallest power of two, from p on, that is not below n. */
  function NextPowerOfTwo(n: nat, p: nat): (r: nat)
    requires p > 0
    decreases n - p
  {
    if n <= p then p else NextPowerOfTwo(n, 2 * p)
  }

  function SplitPoint(n: nat): (i: nat) {
    NextPowerOfTwo(n, 1) / 2
  }

  lemma {:induction false} NextPowerBounds(n: nat, k: nat)
    requires Pow2(k) < n
    ensures exists j :: k < j && NextPowerOfTwo(n, Pow2(k)) == Pow2(j) && Pow2(j - 1) < n <= Pow2(j)
    decreases n - Pow2(k)
  {
    assert Pow2(k + 1) == 2 * Pow2(k);
    if Pow2(k + 1) < n {
      NextPowerBounds(n, k + 1);
    } else {
      assert NextPowerOfTwo(n, Pow2(k)) == Pow2(k + 1) && Pow2(k + 1 - 1) < n <= Pow2(k + 1);
    }
  }

  /** The left part is a power of two, shorter than the whole and at least as long as the right part. */
  lemma {:induction false} SplitPointBounds(n: nat) returns (k: nat)
    requires n >= 2
    ensures SplitPoint(n) == Pow2(k) && SplitPoint(n) < n <= 2 * SplitPoint(n)
  {
    assert Pow2(0) == 1;
    NextPowerBounds(n, 0);
    var j :| 0 < j && NextPowerOfTwo(n, Pow2(0)) == Pow2(j) && Pow2(j - 1) < n <= Pow2(j);
    k := j - 1;
    assert Pow2(j) == 2 * Pow2(k);
  }

  lemma {:induction false} SplitPointInside(n: nat)
    requires n >= 2
    ensures 0 < SplitPoint(n) < n <= 2 * SplitPoint(n)
  {
    var k := SplitPointBounds(n);
  }

  function LeafBytes<T>(x: T, ser: T -> seq<Byte>): (s: seq<Byte>) {
    [0] + ser(x)
  }

  function BranchBytes(a: Hash, b: Hash): (s: seq<Byte>) {
    [1] + a + b
  }

  function MakeTree<T>(xs: seq<T>, ser: T -> seq<Byte>, h: Hasher): (n: Node)
    requires xs != []
    decreases |xs|
  {
    if |xs| == 1 then Leaf(h(LeafBytes(xs[0], ser)))
    else
      SplitPointInside(|xs|);
      var i := SplitPoint(|xs|);
      var a := MakeTree(xs[..i], ser, h);
      var b := MakeTree(xs[i..], ser, h);
      Branch(h(BranchBytes(a.hash, b.hash)), a, b)
  }

  function New<T>(xs: seq<T>, ser: T -> seq<Byte>, h: Hasher): (t: Tree) {
    if xs == [] then Empty else Tree(|xs|, MakeTree(xs, ser, h))
  }

  function RootHash(t: Tree, h: Hasher): (r: Hash) {
    match t case Empty => h([]) case Tree(_, n) => n.hash
  }

  // ----- the shape

  function Height(n: Node): (d: nat) {
    match n
    case Leaf(_) => 0
    case Branch(_, a, b) => 1 + if Height(a) >= Height(b) then Height(a) else Height(b)
  }

  function Leaves(n: Node): (s: seq<Hash>) {
    match n case Leaf(h) => [h] case Branch(_, a, b) => Leaves(a) + Leaves(b)
  }

  /** All leaves at one depth. */
  predicate Perfect(n: Node, depth: nat) {
    match n
    case Leaf(_) => depth == 0
    case Branch(_, a, b) => depth > 0 && Perfect(a, depth - 1) && Perfect(b, depth - 1)
  }

  /** The logarithm to base two, rounded up. */
  predicate IsCeilLog2(n: nat, k: nat) {
    n <= Pow2(k) && (k > 0 ==> Pow2(k - 1) < n)
  }

  lemma {:induction false} PerfectTree<T>(xs: seq<T>, ser: T -> seq<Byte>, h: Hasher, k: nat)
    requires |xs| == Pow2(k)
    ensures Perfect(MakeTree(xs, ser, h), k) && Height(MakeTree(xs, ser, h)) == k
    decreases |xs|
  {
    if |xs| > 1 {
      var j := SplitPointBounds(|xs|);
      assert k > 0;
      SamePower(j, k);
      var i := SplitPoint(|xs|);
      PerfectTree(xs[..i], ser, h, k - 1);
      PerfectTree(xs[i..], ser, h, k - 1);
    } else {
      OnePower(k);
    }
  }

  lemma {:induction false} OnePower(k: nat)
    requires Pow2(k) == 1
    ensures k == 0
  {
  }

  lemma {:induction false} FourTimes(j: nat)
    ensures Pow2(j) < Pow2(j + 1) == 2 * Pow2(j) && Pow2(j + 2) == 4 * Pow2(j)
  {
    Pow2Monotone(0, j);
    assert Pow2(j + 2) == 2 * Pow2(j + 1);
  }

  lemma {:induction false} SamePower(j: nat, k: nat)
    requires Pow2(j) < Pow2(k) <= 2 * Pow2(j)
    ensures k == j + 1
  {
    Pow2Less(j, k);
    FourTimes(j);
    Pow2Less(k, j + 2);
  }

  /** The hashes of the items, in order. */
  ghost function LeafHashes<T>(xs: seq<T>, ser: T -> seq<Byte>, h: Hasher): (s: seq<seq<Byte>>) {
    seq(|xs|, i requires 0 <= i < |xs| => h(LeafBytes(xs[i], ser)))
  }

  /** Every branch carries the hash of its two parts. */
  predicate WellHashed(n: Node, h: Hasher) {
    match n
    case Leaf(_) => true
    case Branch(x, a, b) => x == h(BranchBytes(a.hash, b.hash)) && WellHashed(a, h) && WellHashed(b, h)
  }

  lemma {:induction false} TreeHashes<T>(xs: seq<T>, ser: T -> seq<Byte>, h: Hasher)
    requires xs != []
    ensures Leaves(MakeTree(xs, ser, h)) == LeafHashes(xs, ser, h) && WellHashed(MakeTree(xs, ser, h), h)
    decreases |xs|
  {
    if |xs| > 1 {
      SplitPointInside(|xs|);
      var i := SplitPoint(|xs|);
      TreeHashes(xs[..i], ser, h);
      TreeHashes(xs[i..], ser, h);
      LeafHashesSplit(xs, ser, h, i);
      TreeUnfold(xs, ser, h, i);
    }
  }

  lemma {:induction false} LeafHashesSplit<T>(xs: seq<T>, ser: T -> seq<Byte>, h: Hasher, i: nat)
    requires i <= |xs|
    ensures LeafHashes(xs, ser, h) == LeafHashes(xs[..i], ser, h) + LeafHashes(xs[i..], ser, h)
  {
  }

  lemma {:induction false} TreeUnfold<T>(xs: seq<T>, ser: T -> seq<Byte>, h: Hasher, i: nat)
    requires |xs| > 1 && i == SplitPoint(|xs|) && 0 < i < |xs|
    ensures var a, b := MakeTree(xs[..i], ser, h), MakeTree(xs[i..], ser, h);
            MakeTree(xs, ser, h) == Branch(h(BranchBytes(a.hash, b.hash)), a, b)
  {
  }

  /** The height of the tree is the rounded-up logarithm of its size, and every left part is perfect. */
  lemma {:induction false} TreeShape<T>(xs: seq<T>, ser: T -> seq<Byte>, h: Hasher)
    requires xs != []
    ensures IsCeilLog2(|xs|, Height(MakeTree(xs, ser, h)))
    ensures LeftsPerfect(MakeTree(xs, ser, h))
    decreases |xs|
  {
    if |xs| == 1 {
      assert Pow2(0) == 1;
    } else {
      var k := SplitPointBounds(|xs|);
      var i := SplitPoint(|xs|);
      PerfectTree(xs[..i], ser, h, k);
      TreeShape(xs[..i], ser, h);
      TreeShape(xs[i..], ser, h);
      CeilLogAtMost(|xs[i..]|, Height(MakeTree(xs[i..], ser, h)), k);
      assert Pow2(k + 1) == 2 * Pow2(k);
    }
  }

  predicate LeftsPerfect(n: Node) {
    match n
    case Leaf(_) => true
    case Branch(_, a, b) => Perfect(a, Height(a)) && Height(b) <= Height(a) && LeftsPerfect(a) && LeftsPerfect(b)
  }

  lemma {:induction false} CeilLogAtMost(n: nat, k: nat, j: nat)
    requires IsCeilLog2(n, k) && n <= Pow2(j)
    ensures k <= j
  {
    if k > j {
      Pow2Monotone(j, k - 1);
    }
  }

  // ----- the root determines the items

  /** Two different strings with the same hash. */
  ghost predicate Collision(h: Hasher, a: seq<Byte>, b: seq<Byte>) {
    a != b && h(a) == h(b)
  }

  ghost predicate Injective<T(!new)>(ser: T -> seq<Byte>) {
    forall x, y :: ser(x) == ser(y) ==> x == y
  }

  /** What is hashed for the root of a list. */
  function Preimage<T>(xs: seq<T>, ser: T -> seq<Byte>, h: Hasher): (s: seq<Byte>) {
    if xs == [] then []
    else if |xs| == 1 then LeafBytes(xs[0], ser)
    else
      SplitPointInside(|xs|);
      BranchBytes(MakeTree(xs[..SplitPoint(|xs|)], ser, h).hash, MakeTree(xs[SplitPoint(|xs|)..], ser, h).hash)
  }

  lemma {:induction false} RootOfPreimage<T>(xs: seq<T>, ser: T -> seq<Byte>, h: Hasher)
    ensures RootHash(New(xs, ser, h), h) == h(Preimage(xs, ser, h))
  {
  }

  /** The two parts of a longer list have roots of their own, side by side in the preimage. */
  lemma {:induction false} PreimageParts<T>(xs: seq<T>, ser: T -> seq<Byte>, h: Hasher, i: nat)
    requires |xs| > 1 && i == SplitPoint(|xs|) <= |xs|
    ensures Preimage(xs, ser, h) == [1] + RootHash(New(xs[..i], ser, h), h) + RootHash(New(xs[i..], ser, h), h)
  {
    SplitPointInside(|xs|);
  }

  /**
   Equal roots come from equal lists, of whatever lengths, or else two different strings with the same hash
   are found along the two trees.
   */
  lemma {:induction false} RootDetermines<T(!new)>(xs: seq<T>, ys: seq<T>, ser: T -> seq<Byte>, h: Hasher)
    returns (a: seq<Byte>, b: seq<Byte>)
    requires Injective(ser) && RootHash(New(xs, ser, h), h) == RootHash(New(ys, ser, h), h)
    ensures xs == ys || Collision(h, a, b)
    decreases |xs|
  {
    a, b := Preimage(xs, ser, h), Preimage(ys, ser, h);
    RootOfPreimage(xs, ser, h);
    RootOfPreimage(ys, ser, h);
    if a == b {
      if |xs| > 1 && |ys| > 1 {
        a, b := PartsDetermine(xs, ys, ser, h);
      } else {
        ShortLists(xs, ys, ser, h);
      }
    }
  }

  lemma {:induction false} ShortLists<T(!new)>(xs: seq<T>, ys: seq<T>, ser: T -> seq<Byte>, h: Hasher)
    requires Injective(ser) && Preimage(xs, ser, h) == Preimage(ys, ser, h) && (|xs| <= 1 || |ys| <= 1)
    ensures xs == ys
  {
    var a, b := Preimage(xs, ser, h), Preimage(ys, ser, h);
    assert xs != [] ==> a[0] == if |xs| == 1 then 0 else 1;
    assert ys != [] ==> b[0] == if |ys| == 1 then 0 else 1;
    if |xs| == 1 && |ys| == 1 {
      assert a[1..] == ser(xs[0]) && b[1..] == ser(ys[0]);
    }
  }

  lemma {:induction false} PartsDetermine<T(!new)>(xs: seq<T>, ys: seq<T>, ser: T -> seq<Byte>, h: Hasher)
    returns (a: seq<Byte>, b: seq<Byte>)
    requires Injective(ser) && |xs| > 1 && |ys| > 1 && Preimage(xs, ser, h) == Preimage(ys, ser, h)
    ensures xs == ys || Collision(h, a, b)
    decreases |xs|, 0
  {
    var i, j := SplitPoint(|xs|), SplitPoint(|ys|);
    SplitPointInside(|xs|);
    SplitPointInside(|ys|);
    PreimageParts(xs, ser, h, i);
    PreimageParts(ys, ser, h, j);
    var x1, x2 := RootHash(New(xs[..i], ser, h), h), RootHash(New(xs[i..], ser, h), h);
    var y1, y2 := RootHash(New(ys[..j], ser, h), h), RootHash(New(ys[j..], ser, h), h);
    SameHalves(x1, x2, y1, y2);
    a, b := RootDetermines(xs[..i], ys[..j], ser, h);
    if xs[..i] == ys[..j] {
      a, b := RootDetermines(xs[i..], ys[j..], ser, h);
      assert xs == xs[..i] + xs[i..] && ys == ys[..j] + ys[j..];
    }
  }

  lemma {:induction false} SameHalves(x1: Hash, x2: Hash, y1: Hash, y2: Hash)
    requires [1] + x1 + x2 == [1] + y1 + y2
    ensures x1 == y1 && x2 == y2
  {
    var x, y := [1] + x1 + x2, [1] + y1 + y2;
    assert x[1..33] == x1 && y[1..33] == y1;
    assert x[33..] == x2 && y[33..] == y2;
  }
}
