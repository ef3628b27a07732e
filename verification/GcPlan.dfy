/**
 Which chain lengths the collector of the multiverse thins out.

 The collector scans the chain lengths in increasing order and keeps a threshold. A length at or above the threshold
 is kept and moves the threshold halfway towards the longest chain; a length below it is thinned.
 */
module GcPlan {
  import opened Arithmetic
  import opened Powers

  /** How far behind the longest chain a length may be and still be left alone. */
  const SUFFIX_TO_KEEP: nat := 50

  /** One more than the greatest chain length. */
  const U32: nat := 0x1_0000_0000

  /** The threshold when the scan reaches chain length c. */
  ghost function ToKeep(lengths: set<nat>, longest: nat, suffix: nat, c: nat): (t: nat)
    ensures t <= longest
    decreases c, 0
  {
    if c == 0 then 0
    else if Kept(lengths, longest, suffix, c - 1) then c - 1 + (longest - (c - 1)) / 2
    else ToKeep(lengths, longest, suffix, c - 1)
  }

  /** A length outside the suffix that the scan keeps whole. */
  ghost predicate Kept(lengths: set<nat>, longest: nat, suffix: nat, c: nat)
    decreases c, 1
  {
    c in lengths && c + suffix < longest && c >= ToKeep(lengths, longest, suffix, c)
  }

  /** A length outside the suffix of which the scan only keeps the pinned states. */
  ghost predicate Thinned(lengths: set<nat>, longest: nat, suffix: nat, c: nat) {
    c in lengths && c + suffix < longest && c < ToKeep(lengths, longest, suffix, c)
  }

  /** The threshold does not move between two chain lengths that are present. */
  lemma {:induction false} ToKeepGap(lengths: set<nat>, longest: nat, suffix: nat, a: nat, b: nat)
    requires a <= b && forall c :: a <= c < b ==> c !in lengths
    ensures ToKeep(lengths, longest, suffix, a) == ToKeep(lengths, longest, suffix, b)
    decreases b - a
  {
    if a < b {
      ToKeepGap(lengths, longest, suffix, a, b - 1);
    }
  }

  // ----- the 32-bit addition of the suffix

  /**
   The scan adds the suffix to each length in 32 bits, up to the first length within the suffix. The addition
   overflows exactly when all the lengths outside the last 50 numbers are outside the suffix.
   */
  ghost predicate ScanOverflows(lengths: set<nat>, longest: nat) {
    forall c :: c in lengths ==> c + SUFFIX_TO_KEEP < longest || c + SUFFIX_TO_KEEP >= U32
  }

  /** Never before the longest chain is within 50 of the greatest length. */
  lemma {:induction false} ScanFits(lengths: set<nat>, longest: nat)
    requires longest in lengths && longest + SUFFIX_TO_KEEP < U32
    ensures !ScanOverflows(lengths, longest)
  {
  }

  /** The suffix that the scan leaves alone: none where the addition overflows and wraps around. */
  ghost function ScanSuffix(lengths: set<nat>, longest: nat): (n: nat) {
    if ScanOverflows(lengths, longest) then 0 else SUFFIX_TO_KEEP
  }

  /** Lengths for which the addition wraps around, so that one 39 below the longest is thinned. */
  lemma {:induction false} WrappedScanThinsSuffix()
    ensures var lengths, longest := {U32 - 60, U32 - 40, U32 - 1}, U32 - 1;
            && ScanOverflows(lengths, longest)
            && Thinned(lengths, longest, ScanSuffix(lengths, longest), U32 - 40)
  {
    var lengths: set<nat>, longest, a: nat := {U32 - 60, U32 - 40, U32 - 1}, U32 - 1, U32 - 60;
    ToKeepGap(lengths, longest, 0, 0, a);
    assert Kept(lengths, longest, 0, a);
    ToKeepGap(lengths, longest, 0, a + 1, U32 - 40);
  }

  // ----- every thinned length has a kept one nearby

  lemma {:induction false} ThresholdHasSource(lengths: set<nat>, longest: nat, suffix: nat, c: nat) returns (d: nat)
    requires ToKeep(lengths, longest, suffix, c) > 0
    ensures d < c && Kept(lengths, longest, suffix, d) && ToKeep(lengths, longest, suffix, c) == d + (longest - d) / 2
  {
    if Kept(lengths, longest, suffix, c - 1) {
      d := c - 1;
    } else {
      d := ThresholdHasSource(lengths, longest, suffix, c - 1);
    }
  }

  /** A thinned length lies closer to a kept length below it than to the longest chain. */
  lemma {:induction false} ThinnedIsNearKept(lengths: set<nat>, longest: nat, suffix: nat, c: nat) returns (d: nat)
    requires Thinned(lengths, longest, suffix, c)
    ensures d < c && Kept(lengths, longest, suffix, d) && c - d < longest - c
  {
    d := ThresholdHasSource(lengths, longest, suffix, c);
  }

  // ----- logarithmically many lengths are kept

  ghost function KeptBelow(lengths: set<nat>, longest: nat, suffix: nat, c: nat): (s: set<nat>)
    ensures forall d: nat :: d in s <==> d < c && Kept(lengths, longest, suffix, d)
  {
    if c == 0 then {}
    else if Kept(lengths, longest, suffix, c - 1) then KeptBelow(lengths, longest, suffix, c - 1) + {c - 1}
    else KeptBelow(lengths, longest, suffix, c - 1)
  }

  /** Every kept length halves the distance from the threshold to the longest chain. */
  lemma {:induction false} KeptHalves(lengths: set<nat>, longest: nat, suffix: nat, c: nat)
    requires longest > 0
    ensures var m := |KeptBelow(lengths, longest, suffix, c)|;
            && (longest - ToKeep(lengths, longest, suffix, c) - 1) * Pow2(m) <= longest - 1
            && (m > 0 ==> suffix * Pow2(m - 1) <= longest - 1)
  {
    if c > 0 {
      KeptHalves(lengths, longest, suffix, c - 1);
      if Kept(lengths, longest, suffix, c - 1) {
        var m, at := |KeptBelow(lengths, longest, suffix, c - 1)|, longest - (c - 1);
        Halve(longest - ToKeep(lengths, longest, suffix, c - 1), at, Pow2(m), longest, suffix);
        assert |KeptBelow(lengths, longest, suffix, c)| == m + 1;
        assert longest - ToKeep(lengths, longest, suffix, c) == at - at / 2 && Pow2(m + 1) == 2 * Pow2(m);
      } else {
        assert KeptBelow(lengths, longest, suffix, c) == KeptBelow(lengths, longest, suffix, c - 1);
        assert ToKeep(lengths, longest, suffix, c) == ToKeep(lengths, longest, suffix, c - 1);
      }
    }
  }

  lemma {:induction false} Halve(before: nat, at: nat, p: nat, longest: nat, suffix: nat)
    requires suffix < at <= before && (before - 1) * p <= longest - 1
    ensures (at - at / 2 - 1) * (2 * p) <= longest - 1
    ensures suffix * p <= longest - 1
  {
    MulMono(2 * (at - at / 2 - 1), before - 1, p);
    MulMono(suffix, before - 1, p);
  }

  /** Outside the SUFFIX_TO_KEEP, at least four fewer lengths are kept whole than the longest chain has bits. */
  lemma {:induction false} KeptIsLogarithmic(lengths: set<nat>, longest: nat)
    ensures var kept := KeptBelow(lengths, longest, SUFFIX_TO_KEEP, longest);
            kept == {} || (longest > 0 && |kept| + 4 <= Log2(longest))
  {
    var kept := KeptBelow(lengths, longest, SUFFIX_TO_KEEP, longest);
    if kept != {} {
      var m := |kept| - 1;
      KeptHalves(lengths, longest, SUFFIX_TO_KEEP, longest);
      Pow2Add(5, m);
      Log2AtLeast(longest, m + 5);
    }
  }

  // ----- a second scan finds nothing

  /** Lengths that were thinned away do not move the threshold. */
  lemma {:induction false} ToKeepAfter(lengths: set<nat>, left: set<nat>, longest: nat, suffix: nat, c: nat)
    requires left <= lengths && forall d :: d in lengths - left ==> Thinned(lengths, longest, suffix, d)
    ensures ToKeep(left, longest, suffix, c) == ToKeep(lengths, longest, suffix, c)
  {
    if c > 0 {
      ToKeepAfter(lengths, left, longest, suffix, c - 1);
      if c - 1 in lengths - left {
        assert Thinned(lengths, longest, suffix, c - 1);
      }
      assert Kept(left, longest, suffix, c - 1) <==> Kept(lengths, longest, suffix, c - 1);
    }
  }
}
