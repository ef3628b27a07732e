/**
 Key derivation, scheme V2 (cardano/src/hdwallet.rs).

 A private key is a left scalar, a right part and a chain code of 32 bytes each. The curve and the keyed hash are
 parameters; the curve comes with the laws that the derivation relies on.
 */
module HdWallet {
  import opened Wrappers
  import opened Arithmetic
  import opened Bytes

  const HARD: nat := 0x8000_0000

  type Index = i: nat | i < 0x1_0000_0000

  datatype Error = InvalidXPrv | InvalidDerivation | ExpectedSoftDerivation

  /** The scalars, points and chain codes: 32 bytes each. */
  type Key = s: seq<Byte> | |s| == 32 witness seq(32, _ => 0)

  /** What the keyed hash yields. */
  type Digest = s: seq<Byte> | |s| == 64 witness seq(64, _ => 0)

  type Mac = (seq<Byte>, seq<Byte>) -> Digest

  datatype XPrv = XPrv(kl: Key, kr: Key, chainCode: Key)

  datatype XPub = XPub(pk: Key, chainCode: Key)

  // ----- the additions

  const KEY_SIZE: nat := 32

  /** The remainder of a number modulo p, by repeated subtraction. */
  function Reduce(v: nat, p: nat): (w: nat)
    requires p > 0
    ensures w < p
  {
    if v < p then v else Reduce(v - p, p)
  }

  lemma {:induction false} QuotientIsUnique(p: nat, q: nat, r: nat, q': nat, r': nat)
    requires r < p && r' < p && q * p + r == q' * p + r'
    ensures q == q' && r == r'
  {
    if q < q' {
      MulMono(q + 1, q', p);
      Distribute(q, 1, p);
    } else if q' < q {
      MulMono(q' + 1, q, p);
      Distribute(q', 1, p);
    }
  }

  lemma {:induction false} RemainderStep(v: nat, p: nat)
    requires 0 < p <= v
    ensures v % p == (v - p) % p
  {
    var q, r := (v - p) / p, (v - p) % p;
    Distribute(q, 1, p);
    QuotientIsUnique(p, q + 1, r, v / p, v % p);
  }

  lemma {:induction false} ReduceIsRemainder(v: nat, p: nat)
    requires p > 0
    ensures Reduce(v, p) == v % p
  {
    if v < p {
      QuotientIsUnique(p, 0, v, v / p, v % p);
    } else {
      ReduceIsRemainder(v - p, p);
      RemainderStep(v, p);
    }
  }

  lemma {:induction false} ReduceCarry(v: nat, carry: nat, p: nat)
    requires v < p
    ensures Reduce(v + carry * p, p) == v
  {
    if carry > 0 {
      ReduceCarry(v, carry - 1, p);
      Distribute(carry - 1, 1, p);
    }
  }

  /** A number cut to 256 bits, as 32 bytes. */
  function Cut(v: nat): (s: Key)
  {
    Pow256Positive(KEY_SIZE);
    Encode(Reduce(v, Pow256(KEY_SIZE)), KEY_SIZE)
  }

  lemma {:induction false} CutVal(v: nat)
    ensures Pow256(KEY_SIZE) > 0 && Val(Cut(v)) == Reduce(v, Pow256(KEY_SIZE))
  {
    Pow256Positive(KEY_SIZE);
    EncodeVal(Reduce(v, Pow256(KEY_SIZE)), KEY_SIZE);
  }

  /** The sums of keys are sums modulo 2^256. */
  lemma {:induction false} CutIsModulo(v: nat)
    ensures Pow256(KEY_SIZE) > 0 && Val(Cut(v)) == v % Pow256(KEY_SIZE)
  {
    CutVal(v);
    ReduceIsRemainder(v, Pow256(KEY_SIZE));
  }

  function Sum256(x: Key, y: Key): (s: Key)
  {
    Cut(Val(x) + Val(y))
  }

  function Sum28Mul8(x: Key, y: Key): (s: Key)
  {
    Cut(Val(x) + 8 * Val(y[..28]))
  }

  /** The value of the bytes summed so far, with the carry, is the sum of what has been consumed. */
  ghost predicate Summed(out: seq<Byte>, carry: nat, sum: nat) {
    Val(out) + carry * Pow256(|out|) == sum
  }

  /** Once the carry out of 32 bytes is dropped, what is left is the sum cut to 256 bits. */
  lemma {:induction false} SummedIsCut(out: seq<Byte>, carry: nat, sum: nat)
    requires |out| == KEY_SIZE && Summed(out, carry, sum)
    ensures out == Cut(sum)
  {
    ValBound(out);
    ReduceCarry(Val(out), carry, Pow256(|out|));
    CutVal(sum);
    ValInjective(out, Cut(sum));
  }

  lemma {:induction false} SummedNext(out: seq<Byte>, carry: nat, sum: nat, add: nat, r: nat)
    requires Summed(out, carry, sum) && r == add + carry
    ensures Summed(out + [r % 256], r / 256, sum + add * Pow256(|out|))
  {
    var p := Pow256(|out|);
    ValAppend(out, r % 256);
    Pow256Next(|out|);
    CarryStep(r, p);
    Distribute(add, carry, p);
  }

  lemma {:induction false} AddStep(x: seq<Byte>, y: seq<Byte>, i: nat, done: seq<Byte>, carry: nat, r: nat)
    requires i < |x| && i < |y| && |done| == i && r == x[i] + y[i] + carry
    requires Summed(done, carry, Val(x[..i]) + Val(y[..i]))
    ensures Summed(done + [r % 256], r / 256, Val(x[..i + 1]) + Val(y[..i + 1]))
  {
    SummedNext(done, carry, Val(x[..i]) + Val(y[..i]), r - carry, r);
    ValPrefix(x, i);
    ValPrefix(y, i);
    Distribute(x[i], y[i], Pow256(i));
  }

  /** Bytewise addition with carry, the carry out of the last byte dropped. */
  method Add256(x: Key, y: Key) returns (out: Key)
    ensures out == Sum256(x, y)
  {
    var buf := new Byte[32];
    var carry: int := 0;
    for i := 0 to 32
      invariant 0 <= carry <= 1 && Summed(buf[..i], carry, Val(x[..i]) + Val(y[..i]))
    {
      var r: int := x[i] + y[i] + carry;
      assert r < 0x1_0000;
      ghost var done := buf[..i];
      AddStep(x, y, i, done, carry, r);
      buf[i] := r % 256;
      carry := r / 256;
      assert buf[..i + 1] == done + [r % 256];
    }
    out := buf[..];
    assert x[..32] == x && y[..32] == y && buf[..32] == out;
    SummedIsCut(out, carry, Val(x) + Val(y));
  }

  lemma {:induction false} AddMul8Step(x: seq<Byte>, y: seq<Byte>, i: nat, done: seq<Byte>, carry: nat, r: nat)
    requires i < |x| && i < |y| && |done| == i && r == x[i] + 8 * y[i] + carry
    requires Summed(done, carry, Val(x[..i]) + 8 * Val(y[..i]))
    ensures Summed(done + [r % 256], r / 256, Val(x[..i + 1]) + 8 * Val(y[..i + 1]))
  {
    SummedNext(done, carry, Val(x[..i]) + 8 * Val(y[..i]), r - carry, r);
    ValPrefix(x, i);
    ValPrefix(y, i);
    Distribute(x[i], r - carry - x[i], Pow256(i));
    Assoc(8, y[i], Pow256(i));
  }

  lemma {:induction false} AddRestStep(x: seq<Byte>, i: nat, rest: nat, done: seq<Byte>, carry: nat, r: nat)
    requires i < |x| && |done| == i && r == x[i] + carry && Summed(done, carry, Val(x[..i]) + rest)
    ensures Summed(done + [r % 256], r / 256, Val(x[..i + 1]) + rest)
  {
    SummedNext(done, carry, Val(x[..i]) + rest, x[i], r);
    ValPrefix(x, i);
  }

  /** Add eight times the first 28 bytes of y; every intermediate result fits in 16 bits. */
  method Add28Mul8(x: Key, y: Key) returns (out: Key)
    ensures out == Sum28Mul8(x, y)
  {
    var buf := new Byte[32];
    var carry: int := 0;
    for i := 0 to 28
      invariant 0 <= carry <= 8 && Summed(buf[..i], carry, Val(x[..i]) + 8 * Val(y[..i]))
    {
      var r: int := x[i] + 8 * y[i] + carry;
      assert r < 0x1_0000;
      ghost var done := buf[..i];
      AddMul8Step(x, y, i, done, carry, r);
      buf[i] := r % 256;
      carry := r / 256;
      assert buf[..i + 1] == done + [r % 256];
    }
    ghost var rest := 8 * Val(y[..28]);
    for i := 28 to 32
      invariant 0 <= carry <= 8 && Summed(buf[..i], carry, Val(x[..i]) + rest)
    {
      var r: int := x[i] + carry;
      assert r < 0x1_0000;
      ghost var done := buf[..i];
      AddRestStep(x, i, rest, done, carry, r);
      buf[i] := r % 256;
      carry := r / 256;
      assert buf[..i + 1] == done + [r % 256];
    }
    out := buf[..];
    assert x[..32] == x && buf[..32] == out;
    SummedIsCut(out, carry, Val(x) + 8 * Val(y[..28]));
  }

  // ----- which scalars are keys

  /** The three highest bits are 010 and the three lowest are 000. */
  function FromBytesVerified(x: XPrv): (r: Result<XPrv, Error>)
  {
    if x.kl[31] - x.kl[31] % 32 != 64 then Err(InvalidXPrv)
    else if x.kl[0] % 8 != 0 then Err(InvalidXPrv)
    else Ok(x)
  }

  function NormalizeBytes(x: XPrv): (r: XPrv)
  {
    x.(kl := x.kl[0 := x.kl[0] - x.kl[0] % 8][31 := x.kl[31] % 32 + 64])
  }

  /** The normalised bytes are accepted, and only accepted bytes are left as they are. */
  lemma {:induction false} NormalizedIsVerified(x: XPrv)
    ensures FromBytesVerified(NormalizeBytes(x)).Ok?
    ensures NormalizeBytes(x) == x <==> FromBytesVerified(x).Ok?
  {
    var n := NormalizeBytes(x);
    assert n.kl[0] == x.kl[0] - x.kl[0] % 8 && n.kl[31] == x.kl[31] % 32 + 64;
    if FromBytesVerified(x).Ok? {
      assert n.kl == x.kl;
    }
  }

  lemma {:induction false} LowBits(s: seq<Byte>)
    requires s != []
    ensures Val(s) % 8 == s[0] % 8
  {
    assert s == [s[0]] + s[1..];
    ValCons(s[0], s[1..]);
    ModEight(s[0], Val(s[1..]));
  }

  lemma {:induction false} ModEight(b: nat, v: nat)
    ensures (b + 256 * v) % 8 == b % 8
  {
  }

  lemma {:induction false} TopByte(s: seq<Byte>, n: nat)
    requires |s| == n + 1
    ensures s[n] * Pow256(n) <= Val(s) < (s[n] + 1) * Pow256(n)
  {
    ValBound(s[..n]);
    Distribute(s[n], 1, Pow256(n));
  }

  /** Both sides of a comparison with a multiple of p, decided by the top byte. */
  lemma {:induction false} TopByteDecides(t: nat, v: nat, p: nat, m: nat)
    requires t * p <= v < (t + 1) * p
    ensures m * p <= v <==> m <= t
  {
    if m <= t {
      MulMono(m, t, p);
    } else {
      MulMono(t + 1, m, p);
    }
  }

  /** A scalar after some derivations from an accepted key; each adds less than eight times 2^224. */
  ghost predicate InRange(kl: Key, derivations: nat) {
    && Val(kl) % 8 == 0
    && 64 * Pow256(31) <= Val(kl) < 96 * Pow256(31) + derivations * (8 * Pow256(28))
  }

  lemma {:induction false} VerifiedIsInRange(x: XPrv)
    ensures FromBytesVerified(x).Ok? <==> InRange(x.kl, 0)
  {
    LowBits(x.kl);
    TopByte(x.kl, 31);
    TopByteDecides(x.kl[31], Val(x.kl), Pow256(31), 64);
    TopByteDecides(x.kl[31], Val(x.kl), Pow256(31), 96);
  }

  const MAX_DERIVATIONS: nat := 0x400_0000

  lemma {:induction false} Powers28To32()
    ensures Pow256(31) == 0x100_0000 * Pow256(28) && Pow256(32) == 256 * Pow256(31)
    ensures Pow256(28) >= 1
  {
    Pow256Next(28);
    Pow256Next(29);
    Pow256Next(30);
    Pow256Next(31);
    Pow256Positive(28);
  }

  /** Up to 2^26 derivations, the scalar is below 2^255. */
  lemma {:induction false} InRangeBound(kl: Key, derivations: nat)
    requires InRange(kl, derivations) && derivations <= MAX_DERIVATIONS
    ensures 64 * Pow256(31) <= Val(kl) < 128 * Pow256(31)
  {
    Powers28To32();
    MulMono(derivations, MAX_DERIVATIONS, 8 * Pow256(28));
  }

  /** A sum below 2^256 is not changed by the cut. */
  lemma {:induction false} SmallSum(v: nat)
    requires v < Pow256(32)
    ensures Val(Cut(v)) == v
  {
    CutVal(v);
  }

  /** Adding eight times a number below 2^224 stays within the next bound. */
  lemma {:induction false} NextBound(v: nat, a: nat, p: nat, q: nat, derivations: nat)
    requires v < 96 * p + derivations * (8 * q) && a < q && p == 0x100_0000 * q && derivations < MAX_DERIVATIONS
    ensures v + 8 * a < 96 * p + (derivations + 1) * (8 * q) <= 128 * p
  {
    Distribute(derivations, 1, 8 * q);
    MulMono(derivations + 1, MAX_DERIVATIONS, 8 * q);
  }

  /** The addition of one derivation step does not wrap, and keeps the scalar in range. */
  lemma {:induction false} StepInRange(kl: Key, z: Key, derivations: nat)
    requires InRange(kl, derivations) && derivations < MAX_DERIVATIONS
    ensures Val(Sum28Mul8(kl, z)) == Val(kl) + 8 * Val(z[..28])
    ensures InRange(Sum28Mul8(kl, z), derivations + 1)
  {
    var sum := Val(kl) + 8 * Val(z[..28]);
    assert sum % 8 == 0;
    Powers28To32();
    ValBound(z[..28]);
    NextBound(Val(kl), Val(z[..28]), Pow256(31), Pow256(28), derivations);
    SmallSum(sum);
  }

  // ----- derivation

  /** The prime order of the subgroup that the base point generates. */
  ghost const ORDER: nat := 16 * Pow256(31) + 27742317777372353535851937790883648493

  /** The curve operations the derivation calls; decoding gives the negated point. */
  datatype Curve<!P> = Curve(mulBase: nat -> P, add: (P, P) -> P, neg: P -> P,
                             encode: P -> Key, decodeNegate: Key -> Option<P>)

  function FlipSign(s: Key): (r: Key)
  {
    s[31 := if s[31] < 128 then s[31] + 128 else s[31] - 128]
  }

  /** The laws of the curve, for scalars below 2^255 only. */
  ghost predicate Laws<P(!new)>(c: Curve<P>) {
    && (forall a: nat, b: nat :: a + b < 128 * Pow256(31) ==> c.add(c.mulBase(a), c.mulBase(b)) == c.mulBase(a + b))
    && (forall p, q :: c.add(c.neg(p), c.neg(q)) == c.neg(c.add(p, q)))
    && (forall p :: c.decodeNegate(c.encode(p)) == Some(c.neg(p)))
    && (forall n: nat :: n < 128 * Pow256(31) && n % ORDER != 0 ==>
          FlipSign(c.encode(c.neg(c.mulBase(n)))) == c.encode(c.mulBase(n)))
  }

  function MkPublicKey<P>(c: Curve<P>, kl: Key): (pk: Key) {
    c.encode(c.mulBase(Val(kl)))
  }

  function ToPublic<P>(c: Curve<P>, x: XPrv): (r: XPub) {
    XPub(MkPublicKey(c, x.kl), x.chainCode)
  }

  function SerializeIndex(i: Index): (s: seq<Byte>) {
    Encode(i, 4)
  }

  /** The messages whose keyed hashes give the additions and the new chain code. */
  function ZData<P>(c: Curve<P>, x: XPrv, index: Index): (d: seq<Byte>) {
    if index >= HARD then [0] + x.kl + x.kr + SerializeIndex(index)
    else [2] + MkPublicKey(c, x.kl) + SerializeIndex(index)
  }

  function IData<P>(c: Curve<P>, x: XPrv, index: Index): (d: seq<Byte>) {
    if index >= HARD then [1] + x.kl + x.kr + SerializeIndex(index)
    else [3] + MkPublicKey(c, x.kl) + SerializeIndex(index)
  }

  lemma {:induction false} IndexRoundTrip(i: Index)
    ensures Val(SerializeIndex(i)) == i
  {
    Pow256Of4(4);
    EncodeVal(i, 4);
  }

  /** A message tells its purpose, its index and the key material it was made from. */
  lemma {:induction false} MessagesSeparate<P>(c: Curve<P>, x: XPrv, i: Index, y: XPrv, j: Index)
    ensures ZData(c, x, i) != IData(c, y, j)
    ensures ZData(c, x, i) == ZData(c, y, j) ==> i == j && SameMaterial(c, x, y, i)
    ensures IData(c, x, i) == IData(c, y, j) ==> i == j && SameMaterial(c, x, y, i)
  {
    assert ZData(c, x, i)[0] == (if i >= HARD then 0 else 2) && IData(c, y, j)[0] == if j >= HARD then 1 else 3;
    if ZData(c, x, i) == ZData(c, y, j) {
      MessageParts(c, x, i, y, j, if i >= HARD then 0 else 2, ZData(c, x, i));
    }
    if IData(c, x, i) == IData(c, y, j) {
      MessageParts(c, x, i, y, j, if i >= HARD then 1 else 3, IData(c, x, i));
    }
  }

  predicate SameMaterial<P>(c: Curve<P>, x: XPrv, y: XPrv, i: Index) {
    if i >= HARD then x.kl == y.kl && x.kr == y.kr else MkPublicKey(c, x.kl) == MkPublicKey(c, y.kl)
  }

  /** The part of a message between its first byte and its index. */
  function Material<P>(c: Curve<P>, x: XPrv, i: Index): (m: seq<Byte>)
    ensures |m| == if i >= HARD then 64 else 32
  {
    if i >= HARD then x.kl + x.kr else MkPublicKey(c, x.kl)
  }

  lemma {:induction false} MessageParts<P>(c: Curve<P>, x: XPrv, i: Index, y: XPrv, j: Index, tag: Byte, d: seq<Byte>)
    requires i >= HARD <==> j >= HARD
    requires d == [tag] + Material(c, x, i) + SerializeIndex(i) == [tag] + Material(c, y, j) + SerializeIndex(j)
    ensures i == j && SameMaterial(c, x, y, i)
  {
    var n := |Material(c, x, i)|;
    assert d[1 + n..] == SerializeIndex(i) && d[1 + n..] == SerializeIndex(j);
    assert d[1..1 + n] == Material(c, x, i) && d[1..1 + n] == Material(c, y, j);
    IndexRoundTrip(i);
    IndexRoundTrip(j);
    if i >= HARD {
      var m := Material(c, x, i);
      assert m[..32] == x.kl && m[32..] == x.kr && m[..32] == y.kl && m[32..] == y.kr;
    }
  }

  function ChildPrivate<P>(c: Curve<P>, mac: Mac, x: XPrv, index: Index): (r: XPrv)
  {
    var z := mac(x.chainCode, ZData(c, x, index));
    XPrv(Sum28Mul8(x.kl, z[..32]), Sum256(x.kr, z[32..]), mac(x.chainCode, IData(c, x, index))[32..])
  }

  method DerivePrivate<P>(c: Curve<P>, mac: Mac, x: XPrv, index: Index) returns (r: XPrv)
    ensures r == ChildPrivate(c, mac, x, index)
  {
    var zdata, idata;
    var seri := SerializeIndex(index);
    if index >= HARD {
      var ekey := x.kl + x.kr;
      zdata := [0] + ekey + seri;
      idata := [1] + ekey + seri;
      assert zdata == [0] + x.kl + x.kr + seri && idata == [1] + x.kl + x.kr + seri;
    } else {
      var pk := MkPublicKey(c, x.kl);
      zdata := [2] + pk + seri;
      idata := [3] + pk + seri;
    }
    var zout := mac(x.chainCode, zdata);
    var left := Add28Mul8(x.kl, zout[..32]);
    var right := Add256(x.kr, zout[32..]);
    var iout := mac(x.chainCode, idata);
    r := XPrv(left, right, iout[32..]);
  }

  function PointPlus<P>(c: Curve<P>, p1: Key, p2: Key): (r: Result<Key, Error>)
  {
    match c.decodeNegate(p1)
    case None => Err(InvalidDerivation)
    case Some(a) =>
      match c.decodeNegate(p2)
      case None => Err(InvalidDerivation)
      case Some(b) => Ok(FlipSign(c.encode(c.add(a, b))))
  }

  const ZEROS: Key := seq(32, _ => 0)

  lemma {:induction false} ZerosVal(s: seq<Byte>)
    requires forall i :: 0 <= i < |s| ==> s[i] == 0
    ensures Val(s) == 0
  {
    if s != [] {
      ZerosVal(s[..|s| - 1]);
    }
  }

  /** The point of eight times the first 28 bytes. */
  method PointOfTrunc28Mul8<P>(c: Curve<P>, z: Key) returns (r: Key)
    ensures r == c.encode(c.mulBase(8 * Val(z[..28])))
  {
    var copy := Add28Mul8(ZEROS, z);
    r := c.encode(c.mulBase(Val(copy)));
    TruncatedVal(z);
  }

  lemma {:induction false} TruncatedVal(z: Key)
    ensures 8 * Val(z[..28]) < 128 * Pow256(31) && Val(Sum28Mul8(ZEROS, z)) == 8 * Val(z[..28])
  {
    Powers28To32();
    ValBound(z[..28]);
    ZerosVal(ZEROS);
    SmallSum(8 * Val(z[..28]));
  }

  function ChildPublic<P>(c: Curve<P>, mac: Mac, x: XPub, index: Index): (r: Result<XPub, Error>) {
    if index >= HARD then Err(ExpectedSoftDerivation)
    else
      var z := mac(x.chainCode, [2] + x.pk + SerializeIndex(index));
      match PointPlus(c, x.pk, c.encode(c.mulBase(8 * Val(z[..32][..28]))))
      case Err(e) => Err(e)
      case Ok(left) => Ok(XPub(left, mac(x.chainCode, [3] + x.pk + SerializeIndex(index))[32..]))
  }

  method DerivePublic<P>(c: Curve<P>, mac: Mac, x: XPub, index: Index) returns (r: Result<XPub, Error>)
    ensures r == ChildPublic(c, mac, x, index)
  {
    if index >= HARD {
      return Err(ExpectedSoftDerivation);
    }
    var seri := SerializeIndex(index);
    var zdata := [2] + x.pk + seri;
    var idata := [3] + x.pk + seri;
    var zout := mac(x.chainCode, zdata);
    var point := PointOfTrunc28Mul8(c, zout[..32]);
    var sum := PointPlus(c, x.pk, point);
    if sum.Err? {
      return Err(sum.error);
    }
    var iout := mac(x.chainCode, idata);
    r := Ok(XPub(sum.value, iout[32..]));
  }

  // ----- paths

  function PrivatePath<P>(c: Curve<P>, mac: Mac, x: XPrv, path: seq<Index>): (r: XPrv)
    decreases |path|
  {
    if path == [] then x else PrivatePath(c, mac, ChildPrivate(c, mac, x, path[0]), path[1..])
  }

  function PublicPath<P>(c: Curve<P>, mac: Mac, x: XPub, path: seq<Index>): (r: Result<XPub, Error>)
    decreases |path|
  {
    if path == [] then Ok(x)
    else
      match ChildPublic(c, mac, x, path[0])
      case Err(e) => Err(e)
      case Ok(child) => PublicPath(c, mac, child, path[1..])
  }

  lemma {:induction false} ChildInRange<P>(c: Curve<P>, mac: Mac, x: XPrv, index: Index, derivations: nat)
    requires InRange(x.kl, derivations) && derivations < MAX_DERIVATIONS
    ensures InRange(ChildPrivate(c, mac, x, index).kl, derivations + 1)
  {
    StepInRange(x.kl, mac(x.chainCode, ZData(c, x, index))[..32], derivations);
  }

  /** Along any path, hard or soft, the scalar stays in range. */
  lemma {:induction false} PathInRange<P>(c: Curve<P>, mac: Mac, x: XPrv, path: seq<Index>, derivations: nat)
    requires InRange(x.kl, derivations) && derivations + |path| <= MAX_DERIVATIONS
    ensures InRange(PrivatePath(c, mac, x, path).kl, derivations + |path|)
    decreases |path|
  {
    if path != [] {
      ChildInRange(c, mac, x, path[0], derivations);
      PathInRange(c, mac, ChildPrivate(c, mac, x, path[0]), path[1..], derivations + 1);
    }
  }

  /**
   From an accepted key, up to 2^26 derivations leave the scalar a multiple of eight with its highest bit clear and
   its second highest bit set.
   */
  lemma {:induction false} DerivedScalar<P>(c: Curve<P>, mac: Mac, x: XPrv, path: seq<Index>)
    requires FromBytesVerified(x).Ok? && |path| <= MAX_DERIVATIONS
    ensures var kl := PrivatePath(c, mac, x, path).kl;
            kl[0] % 8 == 0 && 64 <= kl[31] < 128
  {
    VerifiedIsInRange(x);
    PathInRange(c, mac, x, path, 0);
    var kl := PrivatePath(c, mac, x, path).kl;
    InRangeBound(kl, |path|);
    LowBits(kl);
    TopByte(kl, 31);
    TopByteDecides(kl[31], Val(kl), Pow256(31), 64);
    TopByteDecides(kl[31], Val(kl), Pow256(31), 128);
  }

  /** The odd order has no multiple that is both a multiple of eight and within [2^254, 2^255). */
  lemma {:induction false} NotTheIdentity(n: nat)
    requires n % 8 == 0 && 64 * Pow256(31) <= n < 128 * Pow256(31)
    ensures n % ORDER != 0
  {
    LargePower();
    NoMultiple(n, Pow256(31), ORDER);
  }

  lemma {:induction false} NoMultiple(n: nat, p: nat, l: nat)
    requires p % 8 == 0 && p > 27742317777372353535851937790883648493
    requires l == 16 * p + 27742317777372353535851937790883648493
    requires n % 8 == 0 && 64 * p <= n < 128 * p
    ensures n % l != 0
  {
    var j := n / l;
    if n % l == 0 {
      assert n == j * l;
      if j <= 3 {
        MulMono(j, 3, l);
      } else if j >= 8 {
        MulMono(8, j, l);
      } else {
        assert j == 4 || j == 5 || j == 6 || j == 7;
        OddMultiple(j, p / 8, l);
      }
    }
  }

  lemma {:induction false} OddMultiple(j: nat, q: nat, l: nat)
    requires 4 <= j <= 7 && l == 128 * q + 27742317777372353535851937790883648493
    ensures (j * l) % 8 != 0
  {
    var m := 16 * q + 3467789722171544191981492223860456061;
    assert l == 8 * m + 5;
    if j == 4 {
      assert 4 * l == 8 * (4 * m + 2) + 4;
    } else if j == 5 {
      assert 5 * l == 8 * (5 * m + 3) + 1;
    } else if j == 6 {
      assert 6 * l == 8 * (6 * m + 3) + 6;
    } else {
      assert 7 * l == 8 * (7 * m + 4) + 3;
    }
  }

  lemma {:induction false} LargePower()
    ensures Pow256(31) % 8 == 0 && Pow256(31) > 27742317777372353535851937790883648493
  {
    assert Pow256(0) == 1;
    Pow256Next(0);
    Pow256Next(1);
    Pow256Next(2);
    Pow256Next(3);
    assert Pow256(4) == 0x1_0000_0000;
    Pow256Add(4, 4);
    Pow256Add(8, 8);
    Pow256Add(16, 15);
    Pow256Next(14);
    Pow256Positive(14);
  }

  /** One soft step: the public child of the public key is the public key of the private child. */
  lemma {:induction false} SoftStepCommutes<P(!new)>(c: Curve<P>, mac: Mac, x: XPrv, index: Index, derivations: nat)
    requires Laws(c) && InRange(x.kl, derivations) && derivations < MAX_DERIVATIONS && index < HARD
    ensures ChildPublic(c, mac, ToPublic(c, x), index) == Ok(ToPublic(c, ChildPrivate(c, mac, x, index)))
  {
    var z := mac(x.chainCode, ZData(c, x, index))[..32];
    StepInRange(x.kl, z, derivations);
    InRangeBound(Sum28Mul8(x.kl, z), derivations + 1);
    SumOfPoints(c, Val(x.kl), 8 * Val(z[..28]));
    SoftStepIsSum(c, mac, x, index, z);
  }

  /** Both children of a soft step are made from the same messages. */
  lemma {:induction false} SoftStepIsSum<P>(c: Curve<P>, mac: Mac, x: XPrv, index: Index, z: Key)
    requires index < HARD && z == mac(x.chainCode, ZData(c, x, index))[..32]
    requires Val(Sum28Mul8(x.kl, z)) == Val(x.kl) + 8 * Val(z[..28])
    requires PointPlus(c, c.encode(c.mulBase(Val(x.kl))), c.encode(c.mulBase(8 * Val(z[..28])))) ==
             Ok(c.encode(c.mulBase(Val(x.kl) + 8 * Val(z[..28]))))
    ensures ChildPublic(c, mac, ToPublic(c, x), index) == Ok(ToPublic(c, ChildPrivate(c, mac, x, index)))
  {
    var pk := MkPublicKey(c, x.kl);
    assert ZData(c, x, index) == [2] + pk + SerializeIndex(index);
    assert IData(c, x, index) == [3] + pk + SerializeIndex(index);
    var left := c.encode(c.mulBase(Val(x.kl) + 8 * Val(z[..28])));
    var code := mac(x.chainCode, IData(c, x, index))[32..];
    assert ChildPublic(c, mac, XPub(pk, x.chainCode), index) == Ok(XPub(left, code));
    assert MkPublicKey(c, ChildPrivate(c, mac, x, index).kl) == left;
  }

  /** The addition of two encoded points, when the sum is not the neutral element. */
  lemma {:induction false} SumOfPoints<P(!new)>(c: Curve<P>, a: nat, b: nat)
    requires Laws(c) && (a + b) % 8 == 0 && 64 * Pow256(31) <= a + b < 128 * Pow256(31)
    ensures PointPlus(c, c.encode(c.mulBase(a)), c.encode(c.mulBase(b))) == Ok(c.encode(c.mulBase(a + b)))
  {
    NotTheIdentity(a + b);
    assert c.add(c.mulBase(a), c.mulBase(b)) == c.mulBase(a + b);
  }

  /**
   If all indices are soft, deriving publicly from the public key gives the public key of the private derivation; if
   one is hard, public derivation refuses.
   */
  ghost predicate PathLaw<P>(c: Curve<P>, mac: Mac, x: XPrv, path: seq<Index>) {
    PublicPath(c, mac, ToPublic(c, x), path) ==
    if SoftPath(path) then Ok(ToPublic(c, PrivatePath(c, mac, x, path))) else Err(ExpectedSoftDerivation)
  }

  /** Along every path from a key in range. */
  lemma {:induction false} PathCommutes<P(!new)>(c: Curve<P>, mac: Mac, x: XPrv, path: seq<Index>, derivations: nat)
    requires Laws(c) && InRange(x.kl, derivations) && derivations + |path| <= MAX_DERIVATIONS
    ensures PathLaw(c, mac, x, path)
  {
    forall y: XPrv, i: Index, d: nat | d < MAX_DERIVATIONS ensures StepLaw(c, mac, y, i, d) {
      if i < HARD && InRange(y.kl, d) {
        SoftStepCommutes(c, mac, y, i, d);
      }
    }
    PathFromSteps(c, mac, x, path, derivations);
  }

  /** One soft step from a key in range. */
  ghost predicate StepLaw<P>(c: Curve<P>, mac: Mac, x: XPrv, index: Index, derivations: nat) {
    index < HARD && InRange(x.kl, derivations) ==>
      ChildPublic(c, mac, ToPublic(c, x), index) == Ok(ToPublic(c, ChildPrivate(c, mac, x, index)))
  }

  lemma {:induction false} PathFromSteps<P>(c: Curve<P>, mac: Mac, x: XPrv, path: seq<Index>, derivations: nat)
    requires InRange(x.kl, derivations) && derivations + |path| <= MAX_DERIVATIONS
    requires forall y: XPrv, i: Index, d: nat {:trigger StepLaw(c, mac, y, i, d)} ::
               d < MAX_DERIVATIONS ==> StepLaw(c, mac, y, i, d)
    ensures PathLaw(c, mac, x, path)
    decreases |path|
  {
    if path != [] && path[0] < HARD {
      var child := ChildPrivate(c, mac, x, path[0]);
      assert StepLaw(c, mac, x, path[0], derivations);
      ChildInRange(c, mac, x, path[0], derivations);
      PathFromSteps(c, mac, child, path[1..], derivations + 1);
      PathStep(c, mac, x, path, child);
    } else {
      PathEnds(c, mac, x, path);
    }
  }

  lemma {:induction false} PathEnds<P>(c: Curve<P>, mac: Mac, x: XPrv, path: seq<Index>)
    requires path == [] || path[0] >= HARD
    ensures PathLaw(c, mac, x, path)
  {
  }

  lemma {:induction false} PathStep<P>(c: Curve<P>, mac: Mac, x: XPrv, path: seq<Index>, child: XPrv)
    requires path != [] && path[0] < HARD && child == ChildPrivate(c, mac, x, path[0])
    requires ChildPublic(c, mac, ToPublic(c, x), path[0]) == Ok(ToPublic(c, child))
    requires PathLaw(c, mac, child, path[1..])
    ensures PathLaw(c, mac, x, path)
  {
  }

  predicate SoftPath(path: seq<Index>) {
    path == [] || (path[0] < HARD && SoftPath(path[1..]))
  }

  lemma {:induction false} VerifiedPathCommutes<P(!new)>(c: Curve<P>, mac: Mac, x: XPrv, path: seq<Index>)
    requires Laws(c) && FromBytesVerified(x).Ok? && |path| <= MAX_DERIVATIONS
    ensures PublicPath(c, mac, ToPublic(c, x), path) ==
            if SoftPath(path) then Ok(ToPublic(c, PrivatePath(c, mac, x, path))) else Err(ExpectedSoftDerivation)
  {
    VerifiedIsInRange(x);
    PathCommutes(c, mac, x, path, 0);
  }
}
