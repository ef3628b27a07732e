/** Little-endian numbers and their addition byte by byte, as in cardano/src/hdwallet.rs. */
module Bytes {
  import opened Arithmetic

  type Byte = b: int | 0 <= b < 256

  function Product(s: seq<nat>): (r: nat) {
    if s == [] then 1 else s[|s| - 1] * Product(s[..|s| - 1])
  }

  /** A power of 256, as a product over a sequence: a constant exponent is then not multiplied out in a proof. */
  function Pow256(n: nat): (r: nat) {
    Product(seq(n, _ => 256))
  }

  lemma {:induction false} Pow256Next(n: nat)
    ensures Pow256(n + 1) == 256 * Pow256(n)
  {
    assert seq(n + 1, _ => 256)[..n] == seq(n, _ => 256);
  }

  lemma {:induction false} Pow256Of4(n: nat)
    requires n == 4
    ensures Pow256(n) == 0x1_0000_0000
  {
    assert Pow256(n - 4) == 1;
    Pow256Next(n - 4);
    Pow256Next(n - 3);
    Pow256Next(n - 2);
    Pow256Next(n - 1);
  }

  lemma {:induction false} Pow256Positive(n: nat)
    ensures Pow256(n) >= 1
  {
    if n > 0 {
      Pow256Next(n - 1);
      Pow256Positive(n - 1);
    }
  }

  lemma {:induction false} Pow256Add(a: nat, b: nat)
    ensures Pow256(a + b) == Pow256(a) * Pow256(b)
  {
    if b == 0 {
      assert Pow256(0) == 1;
    } else {
      Pow256Add(a, b - 1);
      Pow256Next(a + b - 1);
      Pow256Next(b - 1);
      Exchange(Pow256(a), 256, Pow256(b - 1));
    }
  }

  /** The number that a little-endian byte string stands for. */
  function Val(s: seq<Byte>): (v: nat) {
    if s == [] then 0 else Val(s[..|s| - 1]) + s[|s| - 1] * Pow256(|s| - 1)
  }

  lemma {:induction false} ValBound(s: seq<Byte>)
    ensures Val(s) < Pow256(|s|)
  {
    if s != [] {
      var n := |s| - 1;
      ValBound(s[..n]);
      Pow256Next(n);
      MulMono(s[n], 255, Pow256(n));
    }
  }

  lemma {:induction false} ValAppend(s: seq<Byte>, b: Byte)
    ensures Val(s + [b]) == Val(s) + b * Pow256(|s|)
  {
    assert (s + [b])[..|s|] == s;
  }

  lemma {:induction false} ValPrefix(s: seq<Byte>, i: nat)
    requires i < |s|
    ensures Val(s[..i + 1]) == Val(s[..i]) + s[i] * Pow256(i)
  {
    assert s[..i + 1] == s[..i] + [s[i]];
    ValAppend(s[..i], s[i]);
  }

  /** The bytes of a number, cut to a length. */
  function Encode(v: nat, n: nat): (s: seq<Byte>)
    ensures |s| == n
  {
    if n == 0 then [] else [v % 256] + Encode(v / 256, n - 1)
  }

  lemma {:induction false} ValCons(b: Byte, s: seq<Byte>)
    ensures Val([b] + s) == b + 256 * Val(s)
  {
    if s == [] {
      assert [b] + s == [b];
      assert Val([b]) == Val([]) + b * Pow256(0);
    } else {
      var n := |s| - 1;
      ValCons(b, s[..n]);
      assert ([b] + s)[..n + 1] == [b] + s[..n];
      Pow256Next(n);
      Scale(s[n], Pow256(n));
    }
  }

  lemma {:induction false} Scale(a: nat, p: nat)
    ensures a * (256 * p) == 256 * (a * p)
  {
  }

  /** Strings of equal length that stand for the same number are equal. */
  lemma {:induction false} ValInjective(s: seq<Byte>, t: seq<Byte>)
    requires |s| == |t| && Val(s) == Val(t)
    ensures s == t
  {
    if s != [] {
      assert s == [s[0]] + s[1..] && t == [t[0]] + t[1..];
      ValCons(s[0], s[1..]);
      ValCons(t[0], t[1..]);
      ValInjective(s[1..], t[1..]);
    }
  }

  lemma {:induction false} EncodeVal(v: nat, n: nat)
    requires v < Pow256(n)
    ensures Val(Encode(v, n)) == v
  {
    if n > 0 {
      Pow256Next(n - 1);
      EncodeVal(v / 256, n - 1);
      ValCons(v % 256, Encode(v / 256, n - 1));
    }
  }

  // ----- one step of an addition with carry

  lemma {:induction false} CarryStep(r: nat, p: nat)
    ensures (r % 256) * p + (r / 256) * (256 * p) == r * p
  {
    var q := r / 256;
    assert r == 256 * q + r % 256;
    assert (256 * q + r % 256) * p == 256 * (q * p) + (r % 256) * p by {
      Distribute(256 * q, r % 256, p);
      Assoc(256, q, p);
    }
    Exchange(q, 256, p);
  }

  lemma {:induction false} Distribute(a: int, b: int, p: int)
    ensures (a + b) * p == a * p + b * p
  {
  }

  lemma {:induction false} Assoc(a: int, b: int, p: int)
    ensures (a * b) * p == a * (b * p)
  {
  }

  lemma {:induction false} Exchange(a: int, b: int, p: int)
    ensures a * (b * p) == b * (a * p)
  {
  }
}
