/**
 The lengths of the back links of the block store, and how many of them a walk
 to an ancestor follows.

 A block at depth d has a back link of distance JumpDistance(d % 32). Away from
 the genesis end the greedy walk only depends on d % 32 (its order) and on the
 distance still to go, so its cost can be studied on those two numbers alone.
 */
module SkipLinks {
  import opened Powers

  /** No link spans more than 2^31 - 1 blocks. */
  const LONGEST_JUMP: nat := 0x7fff_ffff

  lemma {:induction false} LongestJump(order: nat)
    requires order == 31
    ensures JumpDistance(order) == LONGEST_JUMP
  {
    Pow2Of31(order);
  }

  lemma {:induction false} JumpWithin(order: nat)
    requires order < 32
    ensures JumpDistance(order) <= LONGEST_JUMP
    ensures JumpDistance(order) < LONGEST_JUMP ==> order < 31
  {
    Pow2Monotone(order, 31);
    LongestJump(31);
  }

  function JumpDistance(order: nat): (d: nat)
    ensures d >= 1
  {
    if order == 0 then 1 else assert Pow2(order) == 2 * Pow2(order - 1); Pow2(order) - 1
  }

  /** The depth that the fast link of a block at this depth leads to, or 0 for none. */
  function ComputeFastLink(depth: nat): (link: nat)
    ensures link > 0 ==> link + JumpDistance(depth % 32) == depth
    ensures link == 0 <==> depth <= JumpDistance(depth % 32)
  {
    var distance := JumpDistance(depth % 32);
    if distance < depth then depth - distance else 0
  }

  /** The distance of the link that a greedy walk follows: the longest that does not overshoot. */
  function HopDistance(order: nat, remaining: nat): (d: nat)
    ensures d >= 1
  {
    if JumpDistance(order) <= remaining then JumpDistance(order) else 1
  }

  /** The order of the block that lies `distance` below a block of the given order. */
  function OrderAfter(order: nat, distance: nat): (o: nat)
    ensures o < 32
  {
    (order - distance) % 32
  }

  /** The number of links that the greedy walk follows. */
  function Hops(order: nat, remaining: nat): (n: nat)
    decreases remaining
  {
    if remaining == 0 then 0
    else
      var d := HopDistance(order, remaining);
      1 + Hops(OrderAfter(order, d), remaining - d)
  }

  /** One hop of the walk from a block at the given depth. */
  lemma {:induction false} HopOnce(depth: nat, remaining: nat)
    requires 0 < remaining < depth
    ensures var d := HopDistance(depth % 32, remaining);
            d <= remaining && Hops(depth % 32, remaining) == 1 + Hops((depth - d) % 32, remaining - d)
  {
    var d := HopDistance(depth % 32, remaining);
    HopsUnfold(depth % 32, remaining, d);
    SameOrder(depth, d);
  }

  lemma {:induction false} HopsUnfold(order: nat, remaining: nat, d: nat)
    requires remaining > 0 && d == HopDistance(order, remaining)
    ensures d <= remaining && Hops(order, remaining) == 1 + Hops(OrderAfter(order, d), remaining - d)
  {
  }

  lemma {:induction false} SameOrder(depth: nat, d: nat)
    requires d <= depth
    ensures OrderAfter(depth % 32, d) == (depth - d) % 32
  {
  }

  lemma {:induction false} HopsAtMostDistance(order: nat, remaining: nat)
    ensures Hops(order, remaining) <= remaining
    decreases remaining
  {
    if remaining > 0 {
      var d := HopDistance(order, remaining);
      HopsAtMostDistance(OrderAfter(order, d), remaining - d);
    }
  }

  /** A jump from an order of at least five leads to the next order. */
  lemma {:induction false} Pow2Mod32(r: nat)
    requires r >= 5
    ensures Pow2(r) % 32 == 0
  {
    if r == 5 {
      assert Pow2(5) == 2 * Pow2(4) == 32;
    } else {
      Pow2Mod32(r - 1);
    }
  }

  lemma {:induction false} JumpRaisesOrder(order: nat)
    requires 5 <= order < 32
    ensures OrderAfter(order, JumpDistance(order)) == (order + 1) % 32
  {
    Pow2Mod32(order);
    Mod32(order + 1, Pow2(order) / 32);
  }

  lemma {:induction false} Mod32(a: int, k: int)
    ensures (a - 32 * k) % 32 == a % 32
  {
  }

  /** One hop by a single parent link, when the jump would overshoot. */
  lemma {:induction false} StepDown(order: nat, remaining: nat)
    requires 1 <= order < 32 && 0 < remaining < JumpDistance(order)
    ensures Hops(order, remaining) == 1 + Hops(order - 1, remaining - 1)
  {
    assert HopDistance(order, remaining) == 1;
  }

  lemma {:induction false} JumpUp(order: nat, remaining: nat)
    requires 5 <= order < 31 && JumpDistance(order) <= remaining
    ensures Hops(order, remaining) == 1 + Hops(order + 1, remaining - JumpDistance(order))
  {
    JumpRaisesOrder(order);
    HopTo(order, remaining, JumpDistance(order), order + 1);
  }

  lemma {:induction false} HopTo(order: nat, remaining: nat, d: nat, next: nat)
    requires 0 < d <= remaining && d == HopDistance(order, remaining) && OrderAfter(order, d) == next
    ensures Hops(order, remaining) == 1 + Hops(next, remaining - d)
  {
    HopsUnfold(order, remaining, d);
  }

  /**
   The descending phase: the jump overshoots. Each order is left for good after at most three hops,
   and after more than one only when the remaining distance loses a bit.
   */
  lemma {:induction false} DescendingCost(order: nat, remaining: nat, bits: nat)
    requires 5 <= order < 32 && remaining < JumpDistance(order) && remaining + 1 < Pow2(bits + 1)
    ensures Hops(order, remaining) <= 25 + order + 2 * bits
    decreases order
  {
    if order == 5 {
      assert JumpDistance(order) <= 31 by { assert Pow2(5) == 2 * Pow2(4) == 32; }
      HopsAtMostDistance(order, remaining);
    } else if remaining > 0 {
      StepDown(order, remaining);
      if remaining - 1 < JumpDistance(order - 1) {
        DescendingCost(order - 1, remaining - 1, bits);
      } else {
        DescendAgain(order, remaining, bits);
      }
    }
  }

  /** Down one order, back up by its jump, and down again. */
  lemma {:induction false} DescendAgain(order: nat, remaining: nat, bits: nat)
    requires 6 <= order < 32 && JumpDistance(order - 1) < remaining < JumpDistance(order)
    requires remaining + 1 < Pow2(bits + 1)
    ensures Hops(order - 1, remaining - 1) <= 24 + order + 2 * bits
    decreases order, 0
  {
    var rest := remaining - 1 - JumpDistance(order - 1);
    JumpUp(order - 1, remaining - 1);
    if rest > 0 {
      StepDown(order, rest);
      LosesABit(order - 1, remaining, rest, bits);
      DescendingCost(order - 1, rest - 1, bits - 1);
    }
  }

  lemma {:induction false} LosesABit(order: nat, remaining: nat, rest: nat, bits: nat)
    requires order > 0 && rest + Pow2(order) == remaining < 2 * Pow2(order) - 1 && remaining + 1 < Pow2(bits + 1)
    ensures 0 < bits && rest < Pow2(bits)
  {
    Pow2Less(order, bits + 1);
    Pow2Monotone(order, bits);
  }

  /** The ascending phase: the jumps double until one overshoots. */
  lemma {:induction false} AscendingCost(order: nat, remaining: nat, bits: nat)
    requires 5 <= order < 32 && JumpDistance(order) <= remaining < LONGEST_JUMP && remaining + 1 < Pow2(bits + 1)
    ensures Hops(order, remaining) <= 27 - order + 4 * bits
    decreases 31 - order
  {
    JumpWithin(order);
    JumpUp(order, remaining);
    assert order <= bits by { Pow2Less(order, bits + 1); }
    var rest := remaining - JumpDistance(order);
    if rest < JumpDistance(order + 1) {
      DescendingCost(order + 1, rest, bits);
    } else {
      AscendingCost(order + 1, rest, bits);
    }
  }

  /** From order five upwards, whichever phase the walk starts in. */
  lemma {:induction false} HighOrderCost(order: nat, remaining: nat, bits: nat)
    requires 5 <= order < 32 && remaining < LONGEST_JUMP && remaining + 1 < Pow2(bits + 1)
    ensures Hops(order, remaining) <= 56 + 4 * bits
  {
    if remaining < JumpDistance(order) {
      DescendingCost(order, remaining, bits);
    } else {
      AscendingCost(order, remaining, bits);
    }
  }

  /** The orders below five are left within five hops. */
  lemma {:induction false} LowOrderCost(order: nat, remaining: nat, bits: nat)
    requires order < 5 && remaining < LONGEST_JUMP && remaining + 1 < Pow2(bits + 1)
    ensures Hops(order, remaining) <= 57 + order + 4 * bits
    decreases remaining
  {
    if remaining > 0 {
      var next, rest := LowOrderHop(order, remaining);
      if next >= 5 {
        HighOrderCost(next, rest, bits);
      } else {
        LowOrderCost(next, rest, bits);
      }
    }
  }

  lemma {:induction false} LowOrderHop(order: nat, remaining: nat) returns (next: nat, rest: nat)
    requires order < 5 && 0 < remaining
    ensures rest < remaining && (5 <= next < 32 || next + 1 == order)
    ensures Hops(order, remaining) == 1 + Hops(next, rest)
  {
    assert Pow2(1) == 2 && Pow2(2) == 4 && Pow2(3) == 8 && Pow2(4) == 16;
    var d := HopDistance(order, remaining);
    next, rest := OrderAfter(order, d), remaining - d;
  }

  lemma {:induction false} ShortWalk(order: nat, remaining: nat, bits: nat)
    requires order < 32 && remaining < LONGEST_JUMP && remaining + 1 < Pow2(bits + 1)
    ensures order >= 5 ==> Hops(order, remaining) <= 56 + 4 * bits
    ensures Hops(order, remaining) <= 61 + 4 * bits
  {
    if order >= 5 {
      HighOrderCost(order, remaining, bits);
    } else {
      LowOrderCost(order, remaining, bits);
    }
  }

  /**
   The walk to an ancestor at a distance below 2^31 - 1 follows logarithmically many links,
   from a block of any depth.
   */
  lemma {:induction false} LogarithmicHops(order: nat, remaining: nat)
    requires order < 32 && remaining < LONGEST_JUMP
    ensures Hops(order, remaining) <= 61 + 4 * Log2(remaining + 1)
  {
    Log2Bounds(remaining + 1);
    ShortWalk(order, remaining, Log2(remaining + 1));
  }

  /** How often the distance of two hops at the top order fits into a distance. */
  function Laps(distance: nat): (n: nat) {
    if distance <= LONGEST_JUMP then 0 else 1 + Laps(distance - LONGEST_JUMP - 1)
  }

  lemma {:induction false} LapsMonotone(a: nat, b: nat)
    requires a <= b
    ensures Laps(a) <= Laps(b)
  {
    if a > LONGEST_JUMP {
      LapsMonotone(a - LONGEST_JUMP - 1, b - LONGEST_JUMP - 1);
    }
  }

  lemma {:induction false} LapsIsQuotient(distance: nat)
    ensures Laps(distance) == distance / 0x8000_0000
  {
    if distance > LONGEST_JUMP {
      LapsIsQuotient(distance - LONGEST_JUMP - 1);
    }
  }

  /** Past the longest jump, every two hops cover 2^31 blocks. */
  lemma {:induction false} TopOrderCost(order: nat, remaining: nat)
    requires order == 31
    ensures Hops(order, remaining) <= 176 + 2 * Laps(remaining)
    decreases remaining
  {
    LongestJump(order);
    if remaining < LONGEST_JUMP {
      ShortWalk(order, remaining, 30);
    } else {
      JumpRaisesOrder(order);
      var rest := remaining - LONGEST_JUMP;
      assert Hops(order, remaining) == 1 + Hops(0, rest);
      if rest > 0 {
        assert Hops(0, rest) == 1 + Hops(31, rest - 1);
        TopOrderCost(31, rest - 1);
      }
    }
  }

  lemma {:induction false} LongAscendingCost(order: nat, remaining: nat)
    requires 5 <= order < 32
    ensures Hops(order, remaining) <= 207 - order + 2 * Laps(remaining)
    decreases 31 - order
  {
    if order == 31 {
      TopOrderCost(order, remaining);
    } else if remaining < LONGEST_JUMP {
      LongestJump(31);
      ShortWalk(order, remaining, 30);
    } else {
      JumpWithin(order);
      JumpUp(order, remaining);
      var rest := remaining - JumpDistance(order);
      LongAscendingCost(order + 1, rest);
      LapsMonotone(rest, remaining);
    }
  }

  lemma {:induction false} LowOrderLongCost(order: nat, remaining: nat)
    requires order < 5
    ensures Hops(order, remaining) <= 203 + order + 2 * Laps(remaining)
    decreases remaining
  {
    if remaining > 0 {
      var next, rest := LowOrderHop(order, remaining);
      LapsMonotone(rest, remaining);
      if next >= 5 {
        LongAscendingCost(next, rest);
      } else {
        LowOrderLongCost(next, rest);
      }
    }
  }

  /** The number of links followed for a distance without any limit. */
  lemma {:induction false} HopsAtMost(order: nat, remaining: nat)
    requires order < 32
    ensures Hops(order, remaining) <= 207 + 2 * (remaining / 0x8000_0000)
  {
    LapsIsQuotient(remaining);
    if order >= 5 {
      LongAscendingCost(order, remaining);
    } else {
      LowOrderLongCost(order, remaining);
    }
  }

  /**
   No link is longer than 2^31 - 1, so the walk is linear again for longer distances:
   the logarithmic bound cannot be extended to all distances.
   */
  lemma {:induction false} HopsAtLeast(order: nat, remaining: nat)
    requires order < 32
    ensures remaining <= LONGEST_JUMP * Hops(order, remaining)
    decreases remaining
  {
    if remaining > 0 {
      var d := HopDistance(order, remaining);
      JumpWithin(order);
      HopsAtLeast(OrderAfter(order, d), remaining - d);
    }
  }

  /** At 2^39 the walk already takes more links than the logarithmic bound allows, from every depth. */
  lemma {:induction false} LogarithmicBoundFails(order: nat)
    requires order < 32
    ensures var n := 0x80_0000_0000; Hops(order, n) > 61 + 4 * Log2(n + 1)
  {
    var n: nat := 0x80_0000_0001;
    HopsAtLeast(order, n - 1);
    Log2Bounds(n);
    Pow2Of40(40);
    Pow2Less(Log2(n), 40);
  }

  lemma {:induction false} Pow2Of40(n: nat)
    requires n == 40
    ensures Pow2(n) == 0x100_0000_0000
  {
    Pow2ThirtyTwo(n - 32);
    Pow2Eight(n - 40);
  }
}
