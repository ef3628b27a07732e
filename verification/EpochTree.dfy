/** The parent of an epoch in the chain of state deltas: the epoch with its lowest set bit cleared. */
module EpochTree {
  import opened Wrappers
  import opened Powers

  /** Epochs are 64-bit numbers. */
  type EpochId = e: nat | e < 0x1_0000_0000_0000_0000

  function ClearLowest(e: nat): (r: nat)
    requires e > 0
    ensures r < e
  {
    if e % 2 == 1 then e - 1 else 2 * ClearLowest(e / 2)
  }

  function PopCount(e: nat): (n: nat) {
    if e == 0 then 0 else e % 2 + PopCount(e / 2)
  }

  lemma {:induction false} ClearLowestPopCount(e: nat)
    requires e > 0
    ensures PopCount(e) == 1 + PopCount(ClearLowest(e))
  {
    if e % 2 == 0 {
      ClearLowestPopCount(e / 2);
      DoublePopCount(ClearLowest(e / 2));
    } else {
      assert (e - 1) / 2 == e / 2;
    }
  }

  lemma {:induction false} DoublePopCount(e: nat)
    ensures PopCount(2 * e) == PopCount(e)
  {
    if e > 0 {
      assert (2 * e) / 2 == e && (2 * e) % 2 == 0;
    }
  }

  /** A number shifted left by n bits. */
  function Shl(q: nat, n: nat): (r: nat) {
    if n == 0 then q else 2 * Shl(q, n - 1)
  }

  lemma {:induction false} ShlDouble(q: nat, n: nat)
    ensures Shl(2 * q, n) == Shl(q, n + 1)
  {
    if n > 0 {
      ShlDouble(q, n - 1);
    }
  }

  lemma {:induction false} ShlDifference(a: nat, b: nat, n: nat)
    requires b <= a
    ensures Shl(a, n) - Shl(b, n) == Shl(a - b, n)
    ensures a > b ==> Shl(a, n) > Shl(b, n)
  {
    if n > 0 {
      ShlDifference(a, b, n - 1);
    }
  }

  lemma {:induction false} ShlPower(m: nat, n: nat)
    ensures Shl(Pow2(m), n) == Pow2(m + n)
  {
    if n > 0 {
      ShlPower(m, n - 1);
    }
  }

  lemma {:induction false} ClearLowestShl(q: nat, n: nat)
    requires q > 0
    ensures Shl(q, n) > 0 && ClearLowest(Shl(q, n)) == Shl(ClearLowest(q), n)
  {
    if n > 0 {
      ClearLowestShl(q, n - 1);
    }
  }

  /** The failure of the loop that looks at bits 0 to 62 only. */
  datatype Unreachable = Unreachable

  /**
   Clear the lowest set bit, looking for it among the bits 0 to 62. Epoch 0 has no parent. The loop runs out of
   bits exactly for the epoch whose only bit is the highest one.
   */
  method ParentForEpoch(epoch: EpochId) returns (r: Result<Option<EpochId>, Unreachable>)
    ensures epoch == 0 <==> r == Ok(None)
    ensures r.Ok? && r.value.Some? ==> epoch > 0 && r.value.value == ClearLowest(epoch)
    ensures r.Err? <==> epoch == 0x8000_0000_0000_0000
  {
    if epoch == 0 {
      return Ok(None);
    }
    var rest := epoch;
    for n := 0 to 63
      invariant 0 < rest && epoch == Shl(rest, n)
    {
      if rest % 2 != 0 {
        ClearLowestShl(rest, n);
        ShlDifference(rest, 1, n);
        ShlPower(0, n);
        BitBelowTop(rest, n);
        return Ok(Some(epoch - Pow2(n)));
      }
      ShlDouble(rest / 2, n);
      rest := rest / 2;
    }
    TopBit(rest, 63);
    return Err(Unreachable);
  }

  lemma {:induction false} TopBit(rest: nat, n: nat)
    requires rest > 0 && n == 63 && Shl(rest, n) < 0x1_0000_0000_0000_0000
    ensures Shl(rest, n) == 0x8000_0000_0000_0000
  {
    Pow2Of63(n);
    ShlPower(0, n);
    ShlDouble(1, n);
    if rest > 1 {
      ShlDifference(rest, 2, n);
    }
  }

  /** A number whose lowest set bit is below the highest one is not the highest bit alone. */
  lemma {:induction false} BitBelowTop(rest: nat, n: nat)
    requires n < 63 && rest % 2 == 1
    ensures Shl(rest, n) != 0x8000_0000_0000_0000
  {
    Pow2Of63(63);
    ShlPower(63 - n, n);
    var top := Pow2(63 - n);
    assert top == 2 * Pow2(62 - n);
    if rest < top {
      ShlDifference(top, rest, n);
    } else {
      ShlDifference(rest, top, n);
    }
  }
}
